/** An answer as several governed queries: which ones a request needs and which are accepted,
    how they are executed, and what a request ends with. */
module AnswerPlan {
  import opened Wrappers
  import opened Planner
  import opened Periods
  import opened Payloads
  import Sql
  import D = Distribution
  import Literals
  import AsciiText

  datatype AnswerType = ChatHelp | SingleValue | ComparisonTop | Trend | Distribution | Table | FullReport

  datatype AnswerDecision = AnswerDecision(
    answerType: AnswerType, preferredMetric: Option<string>, preferredTime: string, preferredDimensions: seq<string>)

  /** The interpretation of the request, and how many items it asks for at the top. */
  datatype Request = Request(interpretation: Interpretation, top: Option<int>)

  datatype QueryMode = Aggregate | Record

  datatype Spec = Spec(blockKey: string, mode: QueryMode, interpretation: Interpretation, isOptional: bool)

  datatype SpecPlan = SpecPlan(primary: Spec, secondary: seq<Spec>)

  datatype BuildError = MetricMissing | NoCategory | NoTimeDimension | NoSqlPlanning

  // ---- Choosing dimensions ----

  const TIME_KEYS: set<string> := {"day", "week", "month", "quarter", "year", "hour"}

  predicate IsTime(key: string, catalog: Catalog) {
    key in TIME_KEYS || match Get(catalog.dimensions, key)
      case None => false
      case Some(d) => d.dataType in {"date", "timestamp"}
  }

  function FirstWhere(keys: seq<string>, wanted: string -> bool): (r: Option<string>)
    ensures r.Some? ==> r.value in keys && wanted(r.value)
    ensures r.None? ==> forall k :: k in keys ==> !wanted(k)
  {
    if keys == [] then None else if wanted(keys[0]) then Some(keys[0]) else FirstWhere(keys[1..], wanted)
  }

  function NonEmpty(keys: seq<string>): (r: seq<string>)
    ensures forall k :: k in r <==> k in keys && k != ""
  {
    if keys == [] then [] else (if keys[0] == "" then [] else [keys[0]]) + NonEmpty(keys[1..])
  }

  /** The request's dimensions, then the preferred ones, then the metric's own. */
  function Candidates(request: Request, m: Metric, d: AnswerDecision): seq<string> {
    NonEmpty(request.interpretation.dimensions + d.preferredDimensions + m.allowedDimensions)
  }

  /** No permitted dimension is a time. */
  predicate OnlyCategories(m: Metric, catalog: Catalog) {
    forall k :: k in m.allowedDimensions && k != "" ==> !IsTime(k, catalog)
  }

  /** Every permitted dimension is a time. */
  predicate OnlyTimes(m: Metric, catalog: Catalog) {
    forall k :: k in m.allowedDimensions && k != "" ==> IsTime(k, catalog)
  }

  function TimeDimension(request: Request, m: Metric, catalog: Catalog, d: AnswerDecision): (r: Option<string>)
    ensures r.Some? ==> r.value in m.allowedDimensions && r.value != ""
    ensures r.None? <==>
      (d.preferredTime == "" || d.preferredTime !in m.allowedDimensions) && OnlyCategories(m, catalog)
  {
    assert forall k :: k in m.allowedDimensions && k != "" ==> k in Candidates(request, m, d);
    if d.preferredTime != "" && d.preferredTime in m.allowedDimensions then Some(d.preferredTime)
    else FirstWhere(Candidates(request, m, d), k => k in m.allowedDimensions && IsTime(k, catalog))
  }

  function CategoryDimension(request: Request, m: Metric, catalog: Catalog, d: AnswerDecision): (r: Option<string>)
    ensures r.Some? ==> r.value in m.allowedDimensions && !IsTime(r.value, catalog) && r.value != ""
    ensures r.None? <==> OnlyTimes(m, catalog)
  {
    assert forall k :: k in m.allowedDimensions && k != "" ==> k in Candidates(request, m, d);
    FirstWhere(Candidates(request, m, d), k => k in m.allowedDimensions && !IsTime(k, catalog))
  }

  // ---- The specs of each answer type ----

  /** Python's `a or b or default`: zero counts as not given. */
  function OrElse(a: Option<int>, b: Option<int>, default: int): (r: int)
    ensures a.Some? && a.value != 0 ==> r == a.value
    ensures a in {None, Some(0)} && b.Some? && b.value != 0 ==> r == b.value
    ensures a in {None, Some(0)} && b in {None, Some(0)} ==> r == default
  {
    if a.Some? && a.value != 0 then a.value else if b.Some? && b.value != 0 then b.value else default
  }

  function Clamp(x: int, lo: int, hi: int): (r: int)
    requires lo <= hi
    ensures lo <= r <= hi && (lo <= x <= hi ==> r == x) && (x < lo ==> r == lo) && (x > hi ==> r == hi)
  {
    if x < lo then lo else if x > hi then hi else x
  }

  function Shaped(i: Interpretation, dimensions: seq<string>, limit: int, direction: string): Interpretation {
    i.(dimensions := dimensions, limit := Some(limit), direction := Some(direction))
  }

  function KpiSpecs(request: Request, today: int): SpecPlan {
    var primary := Spec("primary_kpi", Aggregate, Shaped(request.interpretation, [], 1, "desc"), false);
    var previous := PreviousPeriod(request.interpretation.period, today);
    SpecPlan(primary,
      if previous.None? then []
      else [Spec("previous_period", Aggregate, primary.interpretation.(period := previous.value), true)])
  }

  function ComparisonSpecs(request: Request, category: string): SpecPlan {
    SpecPlan(Spec("comparison", Aggregate,
      Shaped(request.interpretation, [category],
        Clamp(OrElse(request.top, request.interpretation.limit, 10), 5, 15), "desc"),
      false), [])
  }

  function TrendSpecs(request: Request, time: string): SpecPlan {
    SpecPlan(Spec("trend", Aggregate,
      Shaped(request.interpretation, [time],
        Clamp(OrElse(request.interpretation.limit, None, 30), 14, 120), "asc"), false), [])
  }

  function DistributionSpecs(request: Request, category: string): SpecPlan {
    SpecPlan(Spec("distribution", Aggregate,
      Shaped(request.interpretation, [category], Clamp(OrElse(request.interpretation.limit, None, 25), 10, 50), "desc"),
      false), [])
  }

  function TableSpecs(request: Request): SpecPlan {
    SpecPlan(Spec("records", Record, request.interpretation.(limit := Some(26)), false), [])
  }

  function ReportTrend(i: Interpretation, time: string): Spec {
    Spec("report_trend", Aggregate, Shaped(i, [time], Clamp(OrElse(i.limit, None, 30), 14, 90), "asc"), true)
  }

  function ReportComparison(request: Request, category: string): Spec {
    Spec("report_comparison", Aggregate,
      Shaped(request.interpretation, [category],
        Clamp(OrElse(request.top, request.interpretation.limit, 8), 5, 12), "desc"),
      true)
  }

  function ReportRecords(i: Interpretation): Spec { Spec("report_records", Record, i.(limit := Some(9)), true) }

  function ReportSpecs(request: Request, time: Option<string>, category: Option<string>, today: int): SpecPlan {
    var kpi, i := KpiSpecs(request, today), request.interpretation;
    SpecPlan(kpi.primary.(blockKey := "headline_kpi"),
      kpi.secondary
        + (if time.None? then [] else [ReportTrend(i, time.value)])
        + (if category.None? then [] else [ReportComparison(request, category.value)])
        + [ReportRecords(i)])
  }

  function OrDay(time: Option<string>, m: Metric): Option<string> {
    if time.None? && DAY in m.allowedDimensions then Some(DAY) else time
  }

  function BuildPlan(d: AnswerDecision, request: Request, catalog: Catalog, today: int): Result<SpecPlan, BuildError> {
    var named := request.interpretation.metric.GetOr("");
    match Get(catalog.metrics, if named != "" then named else d.preferredMetric.GetOr(""))
    case None => Err(MetricMissing)
    case Some(m) =>
      var time, category := OrDay(TimeDimension(request, m, catalog, d), m), CategoryDimension(request, m, catalog, d);
      match d.answerType
      case ChatHelp => Err(NoSqlPlanning)
      case SingleValue => Ok(KpiSpecs(request, today))
      case ComparisonTop => if category.None? then Err(NoCategory) else Ok(ComparisonSpecs(request, category.value))
      case Trend => if time.None? then Err(NoTimeDimension) else Ok(TrendSpecs(request, time.value))
      case Distribution => if category.None? then Err(NoCategory) else Ok(DistributionSpecs(request, category.value))
      case Table => Ok(TableSpecs(request))
      case FullReport => Ok(ReportSpecs(request, time, category, today))
  }

  function AllSpecs(p: SpecPlan): seq<Spec> { [p.primary] + p.secondary }

  ghost predicate DistinctKeys(specs: seq<Spec>) {
    forall i, j :: 0 <= i < j < |specs| ==> specs[i].blockKey != specs[j].blockKey
  }

  /** Every plan has one mandatory query, its first; the others are optional; and no two blocks
      share a key. */
  lemma PlanShape(d: AnswerDecision, request: Request, catalog: Catalog, today: int)
    requires BuildPlan(d, request, catalog, today).Ok?
    ensures var p := BuildPlan(d, request, catalog, today).value;
      && DistinctKeys(AllSpecs(p)) && !p.primary.isOptional
      && forall s :: s in p.secondary ==> s.isOptional
  {
    hide Shaped, PreviousPeriod, TimeDimension, CategoryDimension, Clamp, OrElse;
    if d.answerType.FullReport? {
      var named := request.interpretation.metric.GetOr("");
      var m := Get(catalog.metrics, if named != "" then named else d.preferredMetric.GetOr("")).value;
      ReportShape(request, OrDay(TimeDimension(request, m, catalog, d), m),
        CategoryDimension(request, m, catalog, d), today);
    }
  }

  lemma ReportShape(request: Request, time: Option<string>, category: Option<string>, today: int)
    ensures var p := ReportSpecs(request, time, category, today);
      DistinctKeys(AllSpecs(p)) && !p.primary.isOptional && forall s :: s in p.secondary ==> s.isOptional
  {
    hide Shaped, PreviousPeriod, Clamp, OrElse;
  }

  lemma ReportSpecList(request: Request, time: Option<string>, category: Option<string>, today: int)
    ensures var p, kpi := ReportSpecs(request, time, category, today), KpiSpecs(request, today);
      var i := request.interpretation;
      forall s :: s in AllSpecs(p) <==>
        || s == p.primary || s in kpi.secondary || s == ReportRecords(i)
        || (time.Some? && s == ReportTrend(i, time.value))
        || (category.Some? && s == ReportComparison(request, category.value))
  {
    hide KpiSpecs, ReportTrend, ReportComparison, ReportRecords;
  }

  // ---- What the planner accepts of these queries ----

  /** The parts of a request that shaping its queries does not replace are governed. */
  ghost predicate Askable(i: Interpretation, catalog: Catalog, floats: Literals.Floats) {
    && i.metric.Some? && i.metric.value != "" && i.metric.value in catalog.metrics
    && var m := catalog.metrics[i.metric.value];
    && m.grain in {"order", "tender"}
    && (forall f :: f in i.filters ==> GovernedFilter(m, catalog, floats, f.0, f.1))
    && GovernedPeriod(i.period)
  }

  /** Whatever limit and sorting the request came with, an aggregate query of its plan compiles
      exactly when the chosen dimension is in the catalogue and the rest of the request is
      governed; the baseline compiles whenever the headline figure does. */
  lemma ShapedIsPlanned(i: Interpretation, dimensions: seq<string>, limit: int, direction: string, catalog: Catalog,
    floats: Literals.Floats, maxResultRows: nat, today: int)
    requires limit > 0 && direction in {"asc", "desc"}
    ensures PlanFor(Shaped(i, dimensions, limit, direction), catalog, floats, maxResultRows).Ok? <==>
      && Askable(i, catalog, floats)
      && forall key :: key in dimensions ==> GovernedDimension(catalog.metrics[i.metric.value], catalog, key)
    ensures
      PlanFor(Shaped(i, dimensions, limit, direction), catalog, floats, maxResultRows).Ok?
      && PreviousPeriod(i.period, today).Some? ==>
      PlanFor(Shaped(i, dimensions, limit, direction).(period := PreviousPeriod(i.period, today).value), catalog,
        floats, maxResultRows).Ok?
  {
    hide GovernedFilter, GovernedDimension, GovernedPeriod, PlanFor, PreviousPeriod;
    var shaped := Shaped(i, dimensions, limit, direction);
    PlannedIffGoverned(shaped, catalog, floats, maxResultRows);
    LowerDirections();
    PreviousIsAdjacent(i.period, today);
    if PreviousPeriod(i.period, today).Some? {
      PlannedIffGoverned(shaped.(period := PreviousPeriod(i.period, today).value), catalog, floats, maxResultRows);
    }
  }

  lemma LowerDirections()
    ensures AsciiText.Lower("asc") == "asc" && AsciiText.Lower("desc") == "desc"
  {
  }

  // ---- Record queries ----

  /** Keys a record query shows or filters by; it skips the others without a complaint. */
  predicate Heeded(allowed: seq<string>, entries: map<string, Dimension>, key: string) {
    key in allowed && key != "" && key in entries
  }

  function HeededKeys(m: Metric, catalog: Catalog, keys: seq<string>): (r: seq<string>)
    ensures forall k :: k in r <==> k in keys && Heeded(m.allowedDimensions, catalog.dimensions, k)
  {
    if keys == [] then []
    else
      (if Heeded(m.allowedDimensions, catalog.dimensions, keys[0]) then [keys[0]] else [])
        + HeededKeys(m, catalog, keys[1..])
  }

  function HeededFilters(m: Metric, catalog: Catalog,
    filters: seq<(string, FilterValue)>): (r: seq<(string, FilterValue)>)
    ensures forall f :: f in r <==> f in filters && Heeded(m.allowedFilters, catalog.filters, f.0)
  {
    if filters == [] then []
    else
      (if Heeded(m.allowedFilters, catalog.filters, filters[0].0) then [filters[0]] else [])
        + HeededFilters(m, catalog, filters[1..])
  }

  /** A refusal with its reason, an error whose own raising fails, or a KeyError. */
  datatype CompileError = Refused(error: PlanError) | NoSuchMetric | NoSuchGrain

  datatype RecordPlan = RecordPlan(
    grain: Grain, dimensions: seq<PlannedDimension>, filters: seq<PlannedFilter>, period: seq<Sql.Condition>,
    limit: nat)

  datatype Compiled = AggregateQuery(plan: Plan) | RecordQuery(records: RecordPlan)

  function RefusedIfErr<A>(r: Result<A, PlanError>): (s: Result<A, CompileError>)
    ensures s.Ok? <==> r.Ok?
    ensures s.Err? ==> s.error.Refused?
  {
    match r case Ok(a) => Ok(a) case Err(e) => Err(Refused(e))
  }

  /** A missing metric is raised with a text where the error wants a reason, which is an
      AttributeError; the grain is looked up without a check, so an unknown one is a KeyError. */
  function CompileRecords(i: Interpretation, catalog: Catalog, floats: Literals.Floats, maxResultRows: nat)
    : Result<Compiled, CompileError>
  {
    match Get(catalog.metrics, i.metric.GetOr(""))
    case None => Err(NoSuchMetric)
    case Some(m) =>
      match GrainOf(m.grain)
      case None => Err(NoSuchGrain)
      case Some(grain) =>
        var dimensions :- RefusedIfErr(PlanDimensions(catalog, m, grain, HeededKeys(m, catalog, i.dimensions)));
        var filters :- RefusedIfErr(PlanFilters(catalog, floats, m, grain, HeededFilters(m, catalog, i.filters)));
        var period :- RefusedIfErr(PeriodClauses(i.period, Sql.ColumnRef(grain.base, grain.timeColumn)));
        var limit :- RefusedIfErr(NormalizeLimit(i.limit, maxResultRows));
        Ok(RecordQuery(RecordPlan(grain, dimensions, filters, period, limit)))
  }

  function CompileSpec(s: Spec, catalog: Catalog, floats: Literals.Floats,
    maxResultRows: nat): Result<Compiled, CompileError>
  {
    if s.mode.Record? then CompileRecords(s.interpretation, catalog, floats, maxResultRows)
    else
      var plan :- RefusedIfErr(PlanFor(s.interpretation, catalog, floats, maxResultRows));
      Ok(AggregateQuery(plan))
  }

  predicate UnknownGrain(metric: Option<string>, catalog: Catalog) {
    var m := Get(catalog.metrics, metric.GetOr(""));
    m.Some? && m.value.grain !in {"order", "tender"}
  }

  /** A record query finds no metric, or no grain, to start from. */
  predicate Ungrounded(metric: Option<string>, catalog: Catalog) {
    Get(catalog.metrics, metric.GetOr("")).None? || UnknownGrain(metric, catalog)
  }

  ghost predicate RecordAskable(i: Interpretation, catalog: Catalog, floats: Literals.Floats) {
    && i.metric.Some? && i.metric.value != "" && i.metric.value in catalog.metrics
    && var m := catalog.metrics[i.metric.value];
    && m.grain in {"order", "tender"}
    && (forall k :: k in i.dimensions && Heeded(m.allowedDimensions, catalog.dimensions, k) ==>
          GovernedDimension(m, catalog, k))
    && (forall f :: f in i.filters && Heeded(m.allowedFilters, catalog.filters, f.0) ==>
          GovernedFilter(m, catalog, floats, f.0, f.1))
    && GovernedPeriod(i.period)
  }

  /** A record query ignores what the metric does not permit or the catalogue does not know, and
      compiles exactly when the rest is governed. */
  lemma RecordsCompileIff(i: Interpretation, limit: int, catalog: Catalog, floats: Literals.Floats, maxResultRows: nat)
    requires limit > 0
    ensures CompileRecords(i.(limit := Some(limit)), catalog, floats, maxResultRows).Ok? <==>
      RecordAskable(i, catalog, floats)
    ensures CompileRecords(i.(limit := Some(limit)), catalog, floats, maxResultRows) == Err(NoSuchGrain) <==>
      UnknownGrain(i.metric, catalog)
    ensures CompileRecords(i.(limit := Some(limit)), catalog, floats, maxResultRows) == Err(NoSuchMetric) <==>
      Get(catalog.metrics, i.metric.GetOr("")).None?
  {
    hide GovernedFilter, GovernedDimension, PlanDimensions, PlanFilters;
    var found := Get(catalog.metrics, i.metric.GetOr(""));
    if found.Some? {
      var m, grain := found.value, GrainOf(found.value.grain).GetOr(ORDER);
      DimensionsSucceed(catalog, m, grain, HeededKeys(m, catalog, i.dimensions));
      FiltersSucceed(catalog, floats, m, grain, HeededFilters(m, catalog, i.filters));
    }
  }

  // ---- Which requests are planned ----

  /** The metric's own dimensions decide whether there is a category, the request which one. */
  ghost predicate CategoryGoverned(d: AnswerDecision, request: Request, m: Metric, catalog: Catalog) {
    var category := CategoryDimension(request, m, catalog, d);
    category.Some? && GovernedDimension(m, catalog, category.value)
  }

  ghost predicate TimeGoverned(d: AnswerDecision, request: Request, m: Metric, catalog: Catalog) {
    var time := OrDay(TimeDimension(request, m, catalog, d), m);
    time.Some? && GovernedDimension(m, catalog, time.value)
  }

  /** What a request must satisfy for all its queries to compile. The metric preferred by the
      answer type does not help a request that names none; a full report needs its optional
      sections too. */
  ghost predicate Answerable(d: AnswerDecision, request: Request, catalog: Catalog, floats: Literals.Floats) {
    var i := request.interpretation;
    if d.answerType.ChatHelp? then false
    else if d.answerType.Table? then RecordAskable(i, catalog, floats)
    else
      && Askable(i, catalog, floats)
      && var m := catalog.metrics[i.metric.value];
      match d.answerType
      case SingleValue => true
      case Trend => TimeGoverned(d, request, m, catalog)
      case FullReport =>
        && RecordAskable(i, catalog, floats)
        && (OrDay(TimeDimension(request, m, catalog, d), m).Some? ==> TimeGoverned(d, request, m, catalog))
        && (CategoryDimension(request, m, catalog, d).Some? ==> CategoryGoverned(d, request, m, catalog))
      case _ => CategoryGoverned(d, request, m, catalog)
  }

  predicate AllCompile(specs: seq<Spec>, catalog: Catalog, floats: Literals.Floats, maxResultRows: nat) {
    forall s :: s in specs ==> CompileSpec(s, catalog, floats, maxResultRows).Ok?
  }

  lemma KpiCompiles(request: Request, today: int, catalog: Catalog, floats: Literals.Floats, maxResultRows: nat)
    ensures var p := KpiSpecs(request, today);
      AllCompile(AllSpecs(p), catalog, floats, maxResultRows) <==> Askable(request.interpretation, catalog, floats)
    ensures CompileSpec(KpiSpecs(request, today).primary, catalog, floats, maxResultRows).Ok? <==>
      Askable(request.interpretation, catalog, floats)
  {
    hide Askable, PlanFor, PreviousPeriod;
    ShapedIsPlanned(request.interpretation, [], 1, "desc", catalog, floats, maxResultRows, today);
    var p := KpiSpecs(request, today);
    assert p.primary in AllSpecs(p);
  }

  lemma OneDimensionCompiles(s: Spec, i: Interpretation, key: string, limit: int, direction: string, catalog: Catalog,
    floats: Literals.Floats, maxResultRows: nat, today: int)
    requires limit > 0 && direction in {"asc", "desc"}
    requires s.mode.Aggregate? && s.interpretation == Shaped(i, [key], limit, direction)
    ensures CompileSpec(s, catalog, floats, maxResultRows).Ok? <==>
      Askable(i, catalog, floats) && GovernedDimension(catalog.metrics[i.metric.value], catalog, key)
  {
    hide Askable, PlanFor, PreviousPeriod, GovernedDimension;
    ShapedIsPlanned(i, [key], limit, direction, catalog, floats, maxResultRows, today);
    assert key in [key];
  }

  lemma ReportCompiles(request: Request, time: Option<string>, category: Option<string>, today: int, catalog: Catalog,
    floats: Literals.Floats, maxResultRows: nat)
    ensures var i := request.interpretation;
      AllCompile(AllSpecs(ReportSpecs(request, time, category, today)), catalog, floats, maxResultRows) <==>
        && Askable(i, catalog, floats) && RecordAskable(i, catalog, floats)
        && (time.Some? ==> GovernedDimension(catalog.metrics[i.metric.value], catalog, time.value))
        && (category.Some? ==> GovernedDimension(catalog.metrics[i.metric.value], catalog, category.value))
  {
    hide Askable, RecordAskable, PlanFor, PreviousPeriod, GovernedDimension, CompileRecords, Shaped, Clamp, OrElse;
    var i, p, kpi := request.interpretation, ReportSpecs(request, time, category, today), KpiSpecs(request, today);
    KpiCompiles(request, today, catalog, floats, maxResultRows);
    RecordsCompileIff(i, 9, catalog, floats, maxResultRows);
    if time.Some? {
      OneDimensionCompiles(ReportTrend(i, time.value), i, time.value, Clamp(OrElse(i.limit, None, 30), 14, 90), "asc",
        catalog, floats, maxResultRows, today);
    }
    if category.Some? {
      OneDimensionCompiles(ReportComparison(request, category.value), i, category.value,
        Clamp(OrElse(request.top, i.limit, 8), 5, 12), "desc", catalog, floats, maxResultRows, today);
    }
    ReportParts(request, time, category, today, catalog, floats, maxResultRows);
  }

  /** The report's specs, one by one. */
  lemma ReportParts(request: Request, time: Option<string>, category: Option<string>, today: int, catalog: Catalog,
    floats: Literals.Floats, maxResultRows: nat)
    ensures var i := request.interpretation;
      AllCompile(AllSpecs(ReportSpecs(request, time, category, today)), catalog, floats, maxResultRows) <==>
        && AllCompile(AllSpecs(KpiSpecs(request, today)), catalog, floats, maxResultRows)
        && (time.Some? ==> CompileSpec(ReportTrend(i, time.value), catalog, floats, maxResultRows).Ok?)
        && (category.Some? ==>
              CompileSpec(ReportComparison(request, category.value), catalog, floats, maxResultRows).Ok?)
        && CompileSpec(ReportRecords(i), catalog, floats, maxResultRows).Ok?
  {
    hide PlanFor, PreviousPeriod, CompileRecords, Shaped, Clamp, OrElse;
    var kpi := KpiSpecs(request, today);
    assert CompileSpec(kpi.primary.(blockKey := "headline_kpi"), catalog, floats, maxResultRows)
      == CompileSpec(kpi.primary, catalog, floats, maxResultRows);
    var p := ReportSpecs(request, time, category, today);
    assert forall s :: s in AllSpecs(p) <==> s == p.primary || s in p.secondary;
    assert forall s :: s in AllSpecs(kpi) <==> s == kpi.primary || s in kpi.secondary;
  }

  lemma OnlyQuery(s: Spec, catalog: Catalog, floats: Literals.Floats, maxResultRows: nat)
    ensures AllCompile(AllSpecs(SpecPlan(s, [])), catalog, floats, maxResultRows)
      <==> CompileSpec(s, catalog, floats, maxResultRows).Ok?
  {
    assert s in AllSpecs(SpecPlan(s, []));
  }

  lemma TableCompiles(request: Request, catalog: Catalog, floats: Literals.Floats, maxResultRows: nat)
    ensures AllCompile(AllSpecs(TableSpecs(request)), catalog, floats, maxResultRows)
      <==> RecordAskable(request.interpretation, catalog, floats)
  {
    hide RecordAskable, CompileRecords, AllCompile;
    OnlyQuery(TableSpecs(request).primary, catalog, floats, maxResultRows);
    RecordsCompileIff(request.interpretation, 26, catalog, floats, maxResultRows);
  }

  lemma TrendCompiles(request: Request, time: string, today: int, catalog: Catalog, floats: Literals.Floats,
    maxResultRows: nat)
    ensures var i := request.interpretation;
      AllCompile(AllSpecs(TrendSpecs(request, time)), catalog, floats, maxResultRows)
      <==> Askable(i, catalog, floats) && GovernedDimension(catalog.metrics[i.metric.value], catalog, time)
  {
    hide Askable, GovernedDimension, CompileSpec, AllCompile, Shaped, OrElse;
    OnlyQuery(TrendSpecs(request, time).primary, catalog, floats, maxResultRows);
    OneDimensionCompiles(TrendSpecs(request, time).primary, request.interpretation, time,
      Clamp(OrElse(request.interpretation.limit, None, 30), 14, 120), "asc", catalog, floats, maxResultRows, today);
  }

  lemma CategoryCompiles(request: Request, category: string, today: int, catalog: Catalog, floats: Literals.Floats,
    maxResultRows: nat)
    ensures var i := request.interpretation;
      AllCompile(AllSpecs(ComparisonSpecs(request, category)), catalog, floats, maxResultRows)
      <==> Askable(i, catalog, floats) && GovernedDimension(catalog.metrics[i.metric.value], catalog, category)
    ensures var i := request.interpretation;
      AllCompile(AllSpecs(DistributionSpecs(request, category)), catalog, floats, maxResultRows)
      <==> Askable(i, catalog, floats) && GovernedDimension(catalog.metrics[i.metric.value], catalog, category)
  {
    hide Askable, GovernedDimension, CompileSpec, AllCompile, Shaped, OrElse;
    var i := request.interpretation;
    OnlyQuery(ComparisonSpecs(request, category).primary, catalog, floats, maxResultRows);
    OneDimensionCompiles(ComparisonSpecs(request, category).primary, i, category,
      Clamp(OrElse(request.top, i.limit, 10), 5, 15), "desc", catalog, floats, maxResultRows, today);
    OnlyQuery(DistributionSpecs(request, category).primary, catalog, floats, maxResultRows);
    OneDimensionCompiles(DistributionSpecs(request, category).primary, i, category,
      Clamp(OrElse(i.limit, None, 25), 10, 50), "desc", catalog, floats, maxResultRows, today);
  }

  /** The exact condition, on the request, for its plan to exist and compile. */
  lemma PlannedIffAnswerable(d: AnswerDecision, request: Request, catalog: Catalog, today: int, floats: Literals.Floats,
    maxResultRows: nat)
    ensures var plan := BuildPlan(d, request, catalog, today);
      (plan.Ok? && AllCompile(AllSpecs(plan.value), catalog, floats, maxResultRows))
      <==> Answerable(d, request, catalog, floats)
  {
    hide CompileSpec, PreviousPeriod, GovernedDimension, GovernedFilter, Shaped, Clamp, OrElse, ReportSpecs, KpiSpecs;
    hide TimeDimension, CategoryDimension, OrDay, Heeded, AllCompile, AllSpecs;
    var i := request.interpretation;
    var named := i.metric.GetOr("");
    var found := Get(catalog.metrics, if named != "" then named else d.preferredMetric.GetOr(""));
    if found.None? || d.answerType.ChatHelp? { return; }
    var m := found.value;
    var time, category := OrDay(TimeDimension(request, m, catalog, d), m), CategoryDimension(request, m, catalog, d);
    match d.answerType {
      case SingleValue => KpiCompiles(request, today, catalog, floats, maxResultRows);
      case FullReport => ReportCompiles(request, time, category, today, catalog, floats, maxResultRows);
      case Table => TableCompiles(request, catalog, floats, maxResultRows);
      case Trend =>
        if time.Some? { TrendCompiles(request, time.value, today, catalog, floats, maxResultRows); }
      case ComparisonTop =>
        if category.Some? { CategoryCompiles(request, category.value, today, catalog, floats, maxResultRows); }
      case Distribution =>
        if category.Some? { CategoryCompiles(request, category.value, today, catalog, floats, maxResultRows); }
      case ChatHelp =>
    }
  }

  // ---- Executing a plan ----

  /** What became of one query: stopped by the guardrail, failed in the database, or done. */
  datatype SpecOutcome =
    | Rejected(reason: string)
    | Broken(reason: string)
    | Done(rows: seq<Sql.Record>, executionMs: nat)

  datatype Stage = Guardrails | Execution

  datatype Failure = Failure(blockKey: string, isOptional: bool, stage: Stage, reason: string)

  datatype Block = Block(spec: Spec, rows: seq<Sql.Record>, executionMs: nat)

  datatype Executed = Executed(
    primary: Option<Block>, blocks: map<string, Block>, failures: map<string, Failure>, totalMs: nat)

  function FailureOf(s: Spec, o: SpecOutcome): Failure
    requires !o.Done?
  {
    Failure(s.blockKey, s.isOptional, if o.Rejected? then Guardrails else Execution, o.reason)
  }

  /** The plan's run once these queries have been tried; nothing runs after a mandatory failure. */
  function RunSpecs(primaryKey: string, specs: seq<Spec>, outcome: Spec -> SpecOutcome): Executed {
    if specs == [] then Executed(None, map[], map[], 0)
    else
      var before, last := RunSpecs(primaryKey, specs[..|specs| - 1], outcome), specs[|specs| - 1];
      if Stopped(specs[..|specs| - 1], outcome) then before
      else match outcome(last)
        case Done(rows, ms) =>
          var block := Block(last, rows, ms);
          Executed(if before.primary.None? && last.blockKey == primaryKey then Some(block) else before.primary,
            before.blocks[last.blockKey := block], before.failures, before.totalMs + ms)
        case o => before.(failures := before.failures[last.blockKey := FailureOf(last, o)])
  }

  predicate Stopped(specs: seq<Spec>, outcome: Spec -> SpecOutcome) {
    exists s :: s in specs && !s.isOptional && !outcome(s).Done?
  }

  lemma {:induction false} NothingAfterStop(primaryKey: string, specs: seq<Spec>, outcome: Spec -> SpecOutcome, n: nat)
    requires n <= |specs| && Stopped(specs[..n], outcome)
    ensures RunSpecs(primaryKey, specs, outcome) == RunSpecs(primaryKey, specs[..n], outcome)
    decreases |specs|
  {
    if n < |specs| {
      var init := specs[..|specs| - 1];
      assert init[..n] == specs[..n];
      assert Stopped(init, outcome) by {
        var s :| s in specs[..n] && !s.isOptional && !outcome(s).Done?;
        assert s in init;
      }
      NothingAfterStop(primaryKey, init, outcome, n);
    } else {
      assert specs[..n] == specs;
    }
  }

  method ExecuteAnswerPlan(plan: SpecPlan, outcome: Spec -> SpecOutcome) returns (r: Executed)
    ensures r == RunSpecs(plan.primary.blockKey, AllSpecs(plan), outcome)
  {
    hide FailureOf;
    var blocks: map<string, Block>, failures: map<string, Failure> := map[], map[];
    var totalMs: nat, primary: Option<Block> := 0, None;
    var specs := AllSpecs(plan);
    for n := 0 to |specs|
      invariant RunSpecs(plan.primary.blockKey, specs[..n], outcome) == Executed(primary, blocks, failures, totalMs)
      invariant !Stopped(specs[..n], outcome)
    {
      assert specs[..n + 1][..n] == specs[..n] && specs[..n + 1] == specs[..n] + [specs[n]];
      var spec := specs[n];
      match outcome(spec) {
        case Done(rows, executionMs) =>
          var block := Block(spec, rows, executionMs);
          if primary.None? && spec.blockKey == plan.primary.blockKey { primary := Some(block); }
          blocks := blocks[spec.blockKey := block];
          totalMs := totalMs + executionMs;
        case o =>
          failures := failures[spec.blockKey := FailureOf(spec, o)];
          if !spec.isOptional {
            assert spec in specs[..n + 1];
            NothingAfterStop(plan.primary.blockKey, specs, outcome, n + 1);
            return Executed(primary, blocks, failures, totalMs);
          }
      }
    }
    assert specs[..|specs|] == specs;
    return Executed(primary, blocks, failures, totalMs);
  }

  // ---- What an executed plan holds ----

  /** The queries that are tried: up to and with the first mandatory one to fail. */
  function Tried(specs: seq<Spec>, outcome: Spec -> SpecOutcome): (r: seq<Spec>)
    ensures r <= specs
  {
    if specs == [] then []
    else
      var init := specs[..|specs| - 1];
      if Stopped(init, outcome) then Tried(init, outcome) else specs
  }

  function TotalMs(specs: seq<Spec>, outcome: Spec -> SpecOutcome): nat {
    if specs == [] then 0
    else
      var before := TotalMs(specs[..|specs| - 1], outcome);
      match outcome(specs[|specs| - 1]) case Done(_, ms) => before + ms case _ => before
  }

  predicate DoneKey(specs: seq<Spec>, outcome: Spec -> SpecOutcome, key: string) {
    exists s :: s in specs && s.blockKey == key && outcome(s).Done?
  }

  predicate FailedKey(specs: seq<Spec>, outcome: Spec -> SpecOutcome, key: string) {
    exists s :: s in specs && s.blockKey == key && !outcome(s).Done?
  }

  lemma KeysWithOneMore(specs: seq<Spec>, last: Spec, outcome: Spec -> SpecOutcome, key: string)
    ensures DoneKey(specs + [last], outcome, key) <==>
      DoneKey(specs, outcome, key) || (last.blockKey == key && outcome(last).Done?)
    ensures FailedKey(specs + [last], outcome, key) <==>
      FailedKey(specs, outcome, key) || (last.blockKey == key && !outcome(last).Done?)
  {
  }

  lemma NoKeys(outcome: Spec -> SpecOutcome)
    ensures forall key :: !DoneKey([], outcome, key) && !FailedKey([], outcome, key)
  {
  }

  lemma LastKeyIsNew(specs: seq<Spec>, outcome: Spec -> SpecOutcome)
    requires DistinctKeys(specs) && specs != []
    ensures var init, key := specs[..|specs| - 1], specs[|specs| - 1].blockKey;
      DistinctKeys(init) && !DoneKey(init, outcome, key) && !FailedKey(init, outcome, key)
  {
  }

  /** The queries tried are split between blocks and failures: each block is a query that was
      done, each failure one that was not, no query is in both or in neither, and the total
      time is the sum over the queries done. */
  lemma {:induction false} BlocksAndFailuresSplit(primaryKey: string, specs: seq<Spec>, outcome: Spec -> SpecOutcome)
    requires DistinctKeys(specs)
    ensures var r, tried := RunSpecs(primaryKey, specs, outcome), Tried(specs, outcome);
      && (forall key :: key in r.blocks <==> DoneKey(tried, outcome, key))
      && (forall key :: key in r.failures <==> FailedKey(tried, outcome, key))
      && r.blocks.Keys !! r.failures.Keys
      && r.totalMs == TotalMs(tried, outcome)
  {
    hide FailureOf, DoneKey, FailedKey, Stopped, DistinctKeys;
    if specs == [] {
      NoKeys(outcome);
      return;
    }
    var init, last := specs[..|specs| - 1], specs[|specs| - 1];
    LastKeyIsNew(specs, outcome);
    BlocksAndFailuresSplit(primaryKey, init, outcome);
    if !Stopped(init, outcome) {
      TriedAll(init, outcome);
      assert specs == init + [last];
      forall key
        ensures key in RunSpecs(primaryKey, specs, outcome).blocks <==> DoneKey(specs, outcome, key)
        ensures key in RunSpecs(primaryKey, specs, outcome).failures <==> FailedKey(specs, outcome, key)
      {
        KeysWithOneMore(init, last, outcome, key);
      }
    }
  }

  /** What the blocks and failures of the queries tried tell: the rows and the time of those done, and
      of the others at which stage and why they failed. */
  lemma {:induction false} OutcomesAreTold(primaryKey: string, specs: seq<Spec>, outcome: Spec -> SpecOutcome, s: Spec)
    requires DistinctKeys(specs) && s in Tried(specs, outcome)
    ensures var r, key := RunSpecs(primaryKey, specs, outcome), s.blockKey;
      match outcome(s)
      case Done(rows, ms) => key in r.blocks && r.blocks[key] == Block(s, rows, ms)
      case Rejected(reason) => key in r.failures && r.failures[key] == Failure(key, s.isOptional, Guardrails, reason)
      case Broken(reason) => key in r.failures && r.failures[key] == Failure(key, s.isOptional, Execution, reason)
  {
    hide Stopped;
    var init, last := specs[..|specs| - 1], specs[|specs| - 1];
    LastKeyIsNew(specs, outcome);
    assert specs == init + [last];
    if s in Tried(init, outcome) {
      OutcomesAreTold(primaryKey, init, outcome, s);
      assert s in init;
    } else if !Stopped(init, outcome) {
      TriedAll(init, outcome);
    }
  }

  lemma {:induction false} TriedAll(specs: seq<Spec>, outcome: Spec -> SpecOutcome)
    requires !Stopped(specs, outcome)
    ensures Tried(specs, outcome) == specs
  {
  }

  function BlockIf(s: Spec, o: SpecOutcome): Option<Block> {
    match o case Done(rows, ms) => Some(Block(s, rows, ms)) case _ => None
  }

  lemma PrimaryBlock(primaryKey: string, specs: seq<Spec>, outcome: Spec -> SpecOutcome)
    requires DistinctKeys(specs) && specs != [] && specs[0].blockKey == primaryKey && !specs[0].isOptional
    ensures var r := RunSpecs(primaryKey, specs, outcome);
      && (r.primary.Some? <==> outcome(specs[0]).Done?)
      && (r.primary.None? <==> primaryKey in r.failures)
      && (r.primary.Some? ==> r.primary == BlockIf(specs[0], outcome(specs[0])) && primaryKey in r.blocks)
      && (r.primary.None? ==> r.blocks == map[] && r.failures.Keys == {primaryKey} && r.totalMs == 0)
    decreases |specs|
  {
  }

  // ---- The compilation of all queries ----

  ghost predicate FirstRefusal(specs: seq<Spec>, catalog: Catalog, floats: Literals.Floats, maxResultRows: nat,
    e: CompileError)
  {
    exists n :: 0 <= n < |specs| && CompileSpec(specs[n], catalog, floats, maxResultRows) == Err(e) &&
      forall k :: 0 <= k < n ==> CompileSpec(specs[k], catalog, floats, maxResultRows).Ok?
  }

  /** Compiles the queries in their order, until one is refused. */
  method CompileSpecs(specs: seq<Spec>, catalog: Catalog, floats: Literals.Floats, maxResultRows: nat)
    returns (r: Result<map<string, Compiled>, CompileError>)
    ensures r.Ok? <==> AllCompile(specs, catalog, floats, maxResultRows)
    ensures r.Ok? && DistinctKeys(specs) ==> forall s :: s in specs ==>
      s.blockKey in r.value && CompileSpec(s, catalog, floats, maxResultRows) == Ok(r.value[s.blockKey])
    ensures r.Err? ==> FirstRefusal(specs, catalog, floats, maxResultRows, r.error)
  {
    hide CompileSpec;
    var blocks: map<string, Compiled> := map[];
    for n := 0 to |specs|
      invariant forall k :: 0 <= k < n ==> CompileSpec(specs[k], catalog, floats, maxResultRows).Ok?
      invariant DistinctKeys(specs) ==> forall k :: 0 <= k < n ==>
        && specs[k].blockKey in blocks
        && CompileSpec(specs[k], catalog, floats, maxResultRows) == Ok(blocks[specs[k].blockKey])
    {
      var compiled := CompileSpec(specs[n], catalog, floats, maxResultRows);
      if compiled.Err? { return Err(compiled.error); }
      blocks := blocks[specs[n].blockKey := compiled.value];
    }
    return Ok(blocks);
  }

  /** A compilation that ends in an exception nobody handles. */
  predicate Escapes(e: CompileError) { !e.Refused? }

  lemma EscapesIff(s: Spec, catalog: Catalog, floats: Literals.Floats, maxResultRows: nat)
    ensures var r, metric := CompileSpec(s, catalog, floats, maxResultRows), s.interpretation.metric;
      && (r.Err? && Escapes(r.error) <==>
            s.mode.Record? && Ungrounded(metric, catalog))
      && (Ungrounded(metric, catalog) ==> r.Err?)
  {
    hide PlanDimensions, PlanFilters, PeriodClauses, NormalizeLimit, OrderOf;
  }

  predicate AllAbout(specs: seq<Spec>, metric: Option<string>) {
    forall s :: s in specs ==> s.interpretation.metric == metric
  }

  lemma ReportIsAbout(request: Request, time: Option<string>, category: Option<string>, today: int)
    ensures var p := ReportSpecs(request, time, category, today);
      AllAbout(AllSpecs(p), request.interpretation.metric) && p.primary.mode.Aggregate?
  {
    hide PreviousPeriod, Clamp, OrElse, AllSpecs;
    var p, kpi := ReportSpecs(request, time, category, today), KpiSpecs(request, today);
    ReportSpecList(request, time, category, today);
  }

  /** All queries of a plan are about the requested metric, and only a table starts with records. */
  lemma SpecsOfPlan(d: AnswerDecision, request: Request, catalog: Catalog, today: int)
    requires BuildPlan(d, request, catalog, today).Ok?
    ensures var specs := AllSpecs(BuildPlan(d, request, catalog, today).value);
      && AllAbout(specs, request.interpretation.metric)
      && (d.answerType.Table? ==> |specs| == 1)
      && (specs[0].mode.Record? <==> d.answerType.Table?)
  {
    hide PreviousPeriod, TimeDimension, CategoryDimension, Clamp, OrElse, OrDay, ReportSpecs;
    if d.answerType.FullReport? {
      var named := request.interpretation.metric.GetOr("");
      var m := Get(catalog.metrics, if named != "" then named else d.preferredMetric.GetOr("")).value;
      ReportIsAbout(request, OrDay(TimeDimension(request, m, catalog, d), m),
        CategoryDimension(request, m, catalog, d), today);
    }
  }

  /** Among the queries of a plan only a table's own compilation ends in an exception. */
  lemma OnlyTablesEscape(d: AnswerDecision, request: Request, catalog: Catalog, today: int, floats: Literals.Floats,
    maxResultRows: nat, e: CompileError)
    requires BuildPlan(d, request, catalog, today).Ok?
    requires FirstRefusal(AllSpecs(BuildPlan(d, request, catalog, today).value), catalog, floats, maxResultRows, e)
    ensures Escapes(e) <==> d.answerType.Table? && Ungrounded(request.interpretation.metric, catalog)
  {
    hide BuildPlan, CompileSpec, Ungrounded, AllSpecs, Escapes;
    var specs, metric := AllSpecs(BuildPlan(d, request, catalog, today).value), request.interpretation.metric;
    SpecsOfPlan(d, request, catalog, today);
    forall s | s in specs
      ensures var r := CompileSpec(s, catalog, floats, maxResultRows);
        && (r.Err? && Escapes(r.error) <==>
              s.mode.Record? && Ungrounded(metric, catalog))
        && (Ungrounded(metric, catalog) ==> r.Err?)
    {
      EscapesIff(s, catalog, floats, maxResultRows);
    }
    assert specs[0] in specs;
  }

  /** The metric the plan is built for: the one named, else the one preferred. */
  function PlannedMetric(d: AnswerDecision, request: Request, catalog: Catalog): Option<Metric> {
    var named := request.interpretation.metric.GetOr("");
    Get(catalog.metrics, if named != "" then named else d.preferredMetric.GetOr(""))
  }

  /** Requests whose planning ends in an exception that nobody handles: no metric is known, the
      metric has no dimension of the kind the answer needs, or a table's own metric is not in
      the catalogue or of unknown grain. */
  predicate Unhandled(d: AnswerDecision, request: Request, catalog: Catalog) {
    var metric := PlannedMetric(d, request, catalog);
    || metric.None?
    || match d.answerType
       case ChatHelp => true
       case SingleValue => false
       case ComparisonTop => OnlyTimes(metric.value, catalog)
       case Distribution => OnlyTimes(metric.value, catalog)
       case Trend =>
         && OnlyCategories(metric.value, catalog)
         && (d.preferredTime == "" || d.preferredTime !in metric.value.allowedDimensions)
       case Table => Ungrounded(request.interpretation.metric, catalog)
       case FullReport => false
  }

  lemma DayIsATime(catalog: Catalog)
    ensures IsTime(DAY, catalog) && DAY != ""
  {
  }

  /** The plan's own error is raised in the same failing way, so it escapes too. */
  lemma BuildEscapes(d: AnswerDecision, request: Request, catalog: Catalog, today: int)
    ensures BuildPlan(d, request, catalog, today).Err? ==> Unhandled(d, request, catalog)
    ensures BuildPlan(d, request, catalog, today).Ok? ==>
      (Unhandled(d, request, catalog) <==> d.answerType.Table? && Ungrounded(request.interpretation.metric, catalog))
  {
    hide TimeDimension, CategoryDimension, IsTime, KpiSpecs, ReportSpecs, ComparisonSpecs, TrendSpecs;
    hide DistributionSpecs;
    hide Ungrounded;
    DayIsATime(catalog);
  }

  const CITY_METRIC := Metric(
    "orders", "order",
    Sql.Expression([Sql.Verbatim("COUNT("), Sql.Reference(Named("order_id")), Sql.Verbatim(")")],
      cells => Sql.Number(|cells| as real)),
    ["city"], [])

  const CITY_CATALOG := Catalog(map["orders" := CITY_METRIC], map[], map[])

  /** A trend of a metric that can be broken down by city only. */
  lemma TrendWithoutTimeEscapes(period: Period, today: int)
    ensures var request := Request(Interpretation(Some("orders"), [], [], period, None, None), None);
      var d := AnswerDecision(Trend, None, "", []);
      && BuildPlan(d, request, CITY_CATALOG, today) == Err(NoTimeDimension)
      && Unhandled(d, request, CITY_CATALOG)
  {
    assert "city" !in TIME_KEYS;
  }

  // ---- What is shown ----

  datatype Payload =
    | HelpView
    | HeadlineView(headline: Headline)
    | RankingView(ranking: Ranking)
    | SeriesView(series: Series)
    | BreakdownView(breakdown: D.Breakdown)
    | PageView(page: Page)
    | ReportView(report: ReportContent)

  function MetricKey(b: Block): string { b.spec.interpretation.metric.GetOr("") }

  function DimensionKey(b: Block): string {
    if b.spec.interpretation.dimensions == [] then "" else b.spec.interpretation.dimensions[0]
  }

  function BlockFor(blocks: map<string, Block>, key: string): Option<Block> {
    if key in blocks then Some(blocks[key]) else None
  }

  function HeadlineFrom(t: Texts, b: Block, previous: Option<Block>): Headline {
    HeadlineOf(t, MetricKey(b), b.rows, if previous.None? then None else Some(previous.value.rows))
  }

  function ReportFrom(t: Texts, blocks: map<string, Block>): ReportContent {
    var headline, series := BlockFor(blocks, "headline_kpi"), BlockFor(blocks, "report_trend");
    var ranking, page := BlockFor(blocks, "report_comparison"), BlockFor(blocks, "report_records");
    ReportOf(
      if headline.None? then None else Some(HeadlineFrom(t, headline.value, BlockFor(blocks, "previous_period"))),
      if series.None? then None
      else Some(SeriesOf(t, DimensionKey(series.value), MetricKey(series.value), series.value.rows)),
      if ranking.None? then None
      else Some(RankingOf(t, DimensionKey(ranking.value), MetricKey(ranking.value), ranking.value.rows)),
      if page.None? then None else Some(PageOf(page.value.rows, REPORT_PAGE)))
  }

  /** A payload needs the primary block; help needs the catalogue instead. */
  function RenderPayload(t: Texts, a: AnswerType, primary: Option<Block>, blocks: map<string, Block>, withCatalog: bool)
    : Option<Payload>
  {
    if a.ChatHelp? then (if withCatalog then Some(HelpView) else None)
    else if primary.None? then None
    else
      var b := primary.value;
      Some(match a
      case SingleValue => HeadlineView(HeadlineFrom(t, b, BlockFor(blocks, "previous_period")))
      case ComparisonTop => RankingView(RankingOf(t, DimensionKey(b), MetricKey(b), b.rows))
      case Trend => SeriesView(SeriesOf(t, DimensionKey(b), MetricKey(b), b.rows))
      case Distribution => BreakdownView(BreakdownOf(t, DimensionKey(b), MetricKey(b), b.rows))
      case Table => PageView(PageOf(b.rows, TABLE_PAGE))
      case _ => ReportView(ReportFrom(t, blocks)))
  }

  /** The rows a query was answered with, if it was done. */
  function RowsDone(o: SpecOutcome): Option<seq<Sql.Record>> {
    if o.Done? then Some(o.rows) else None
  }

  function BlocksDone(specs: seq<Spec>, outcome: Spec -> SpecOutcome): map<string, Block> {
    if specs == [] then map[]
    else
      var before, last := BlocksDone(specs[..|specs| - 1], outcome), specs[|specs| - 1];
      match outcome(last)
      case Done(rows, ms) => before[last.blockKey := Block(last, rows, ms)]
      case _ => before
  }

  lemma {:induction false} NoneStopped(primaryKey: string, specs: seq<Spec>, outcome: Spec -> SpecOutcome)
    requires !Stopped(specs, outcome)
    ensures RunSpecs(primaryKey, specs, outcome).blocks == BlocksDone(specs, outcome)
  {
    hide FailureOf;
    if specs != [] { NoneStopped(primaryKey, specs[..|specs| - 1], outcome); }
  }

  lemma {:induction false} FoundIffDone(specs: seq<Spec>, outcome: Spec -> SpecOutcome, s: Spec)
    requires DistinctKeys(specs) && s in specs
    ensures BlockFor(BlocksDone(specs, outcome), s.blockKey)
      == BlockIf(s, outcome(s))
  {
    var init, last := specs[..|specs| - 1], specs[|specs| - 1];
    if s == last {
      NotFound(init, outcome, s.blockKey);
    } else {
      FoundIffDone(init, outcome, s);
    }
  }

  lemma {:induction false} NotFound(specs: seq<Spec>, outcome: Spec -> SpecOutcome, key: string)
    requires forall s :: s in specs ==> s.blockKey != key
    ensures BlockFor(BlocksDone(specs, outcome), key).None?
  {
    if specs != [] { NotFound(specs[..|specs| - 1], outcome, key); }
  }

  /** What a plan whose main query was done shows. */
  function Shown(t: Texts, a: AnswerType, p: SpecPlan, outcome: Spec -> SpecOutcome): Option<Payload> {
    RenderPayload(t, a, BlockIf(p.primary, outcome(p.primary)), BlocksDone(AllSpecs(p), outcome), false)
  }

  /** The headline figure, with the change since the previous period if that query was done. */
  function KpiShown(t: Texts, request: Request, today: int, rows: seq<Sql.Record>,
    outcome: Spec -> SpecOutcome): Headline
  {
    var metric, kpi := request.interpretation.metric.GetOr(""), KpiSpecs(request, today);
    HeadlineOf(t, metric, rows, if kpi.secondary == [] then None else RowsDone(outcome(kpi.secondary[0])))
  }

  function TrendShown(t: Texts, i: Interpretation, time: Option<string>, outcome: Spec -> SpecOutcome): Option<Series> {
    if time.None? then None
    else
      var rows := RowsDone(outcome(ReportTrend(i, time.value)));
      if rows.None? then None else Some(SeriesOf(t, time.value, i.metric.GetOr(""), rows.value))
  }

  function ComparisonShown(t: Texts, request: Request, category: Option<string>,
    outcome: Spec -> SpecOutcome): Option<Ranking>
  {
    if category.None? then None
    else
      var rows := RowsDone(outcome(ReportComparison(request, category.value)));
      if rows.None? then None
      else Some(RankingOf(t, category.value, request.interpretation.metric.GetOr(""), rows.value))
  }

  function RecordsShown(i: Interpretation, outcome: Spec -> SpecOutcome): Option<Page> {
    var rows := RowsDone(outcome(ReportRecords(i)));
    if rows.None? then None else Some(PageOf(rows.value, 8))
  }

  lemma ReportBlocks(request: Request, time: Option<string>, category: Option<string>, today: int,
    outcome: Spec -> SpecOutcome)
    ensures var p, kpi := ReportSpecs(request, time, category, today), KpiSpecs(request, today);
      var i := request.interpretation;
      var blocks := BlocksDone(AllSpecs(p), outcome);
      && BlockFor(blocks, "headline_kpi") == BlockIf(p.primary, outcome(p.primary))
      && BlockFor(blocks, "report_records") == BlockIf(ReportRecords(i), outcome(ReportRecords(i)))
      && BlockFor(blocks, "report_trend")
           == (if time.None? then None else BlockIf(ReportTrend(i, time.value), outcome(ReportTrend(i, time.value))))
      && BlockFor(blocks, "report_comparison")
           == (if category.None? then None
               else
                 BlockIf(ReportComparison(request, category.value), outcome(ReportComparison(request, category.value))))
      && BlockFor(blocks, "previous_period")
           == (if kpi.secondary == [] then None else BlockIf(kpi.secondary[0], outcome(kpi.secondary[0])))
  {
    hide BlocksDone, Shaped, Clamp, OrElse, PreviousPeriod, DistinctKeys, BlockIf, BlockFor, AllSpecs;
    var p, kpi, i := ReportSpecs(request, time, category, today), KpiSpecs(request, today), request.interpretation;
    var specs := AllSpecs(p);
    ReportShape(request, time, category, today);
    ReportSpecList(request, time, category, today);
    FoundIffDone(specs, outcome, p.primary);
    FoundIffDone(specs, outcome, ReportRecords(i));
    if time.Some? {
      FoundIffDone(specs, outcome, ReportTrend(i, time.value));
    } else {
      NotDone(specs, outcome, "report_trend");
    }
    if category.Some? {
      FoundIffDone(specs, outcome, ReportComparison(request, category.value));
    } else {
      NotDone(specs, outcome, "report_comparison");
    }
    if kpi.secondary != [] {
      FoundIffDone(specs, outcome, kpi.secondary[0]);
    } else {
      NotDone(specs, outcome, "previous_period");
    }
  }

  lemma NotDone(specs: seq<Spec>, outcome: Spec -> SpecOutcome, key: string)
    requires forall s :: s in specs ==> s.blockKey != key
    ensures BlockFor(BlocksDone(specs, outcome), key) == None
  {
    NotFound(specs, outcome, key);
  }

  /** A report has a section for each optional query that was planned and done. */
  lemma ReportMeans(t: Texts, request: Request, time: Option<string>, category: Option<string>, today: int,
    outcome: Spec -> SpecOutcome)
    requires outcome(ReportSpecs(request, time, category, today).primary).Done?
    ensures var p := ReportSpecs(request, time, category, today);
      ReportFrom(t, BlocksDone(AllSpecs(p), outcome))
      == ReportOf(Some(KpiShown(t, request, today, outcome(p.primary).rows, outcome)),
           TrendShown(t, request.interpretation, time, outcome), ComparisonShown(t, request, category, outcome),
           RecordsShown(request.interpretation, outcome))
  {
    hide BlocksDone, ReportOf, SeriesOf, RankingOf, HeadlineOf, PageOf, Clamp, OrElse, PreviousPeriod;
    hide BlockFor, AllSpecs;
    ReportBlocks(request, time, category, today, outcome);
  }

  lemma KpiMeans(t: Texts, request: Request, today: int, outcome: Spec -> SpecOutcome)
    requires outcome(KpiSpecs(request, today).primary).Done?
    ensures var p := KpiSpecs(request, today);
      var rows := outcome(p.primary).rows;
      Shown(t, SingleValue, p, outcome) == Some(HeadlineView(KpiShown(t, request, today, rows, outcome)))
  {
    hide BlocksDone, HeadlineOf, PreviousPeriod;
    var p := KpiSpecs(request, today);
    var specs := AllSpecs(p);
    if p.secondary != [] {
      FoundIffDone(specs, outcome, p.secondary[0]);
    } else {
      NotFound(specs, outcome, "previous_period");
    }
  }

  /** The content of each payload, from the request and the rows of the queries done. */
  lemma PayloadMeans(t: Texts, d: AnswerDecision, request: Request, catalog: Catalog, today: int,
    outcome: Spec -> SpecOutcome)
    requires BuildPlan(d, request, catalog, today).Ok?
    requires outcome(BuildPlan(d, request, catalog, today).value.primary).Done?
    ensures var i, p := request.interpretation, BuildPlan(d, request, catalog, today).value;
      var metric, rows := i.metric.GetOr(""), outcome(p.primary).rows;
      var m := Get(catalog.metrics, if metric != "" then metric else d.preferredMetric.GetOr("")).value;
      var category, time := CategoryDimension(request, m, catalog, d), OrDay(TimeDimension(request, m, catalog, d), m);
      var shown := Shown(t, d.answerType, p, outcome);
      && (d.answerType.SingleValue? ==> shown == Some(HeadlineView(KpiShown(t, request, today, rows, outcome))))
      && (d.answerType.ComparisonTop? ==>
            category.Some? && shown == Some(RankingView(RankingOf(t, category.value, metric, rows))))
      && (d.answerType.Trend? ==> time.Some? && shown == Some(SeriesView(SeriesOf(t, time.value, metric, rows))))
      && (d.answerType.Distribution? ==>
            category.Some? && shown == Some(BreakdownView(BreakdownOf(t, category.value, metric, rows))))
      && (d.answerType.Table? ==> shown == Some(PageView(PageOf(rows, 25))))
      && (d.answerType.FullReport? ==>
            shown == Some(ReportView(ReportOf(Some(KpiShown(t, request, today, rows, outcome)),
              TrendShown(t, i, time, outcome), ComparisonShown(t, request, category, outcome),
              RecordsShown(i, outcome)))))
  {
    hide PreviousPeriod, TimeDimension, CategoryDimension, OrDay, Clamp, OrElse, HeadlineOf, RankingOf;
    hide SeriesOf, BreakdownOf;
    hide ReportOf, PageOf, KpiShown, TrendShown, ComparisonShown, RecordsShown, ReportFrom, BlocksDone;
    hide KpiSpecs, ReportSpecs;
    hide AllSpecs;
    var metric := request.interpretation.metric.GetOr("");
    var m := Get(catalog.metrics, if metric != "" then metric else d.preferredMetric.GetOr("")).value;
    match d.answerType {
      case SingleValue => KpiMeans(t, request, today, outcome);
      case FullReport =>
        ReportMeans(t, request, OrDay(TimeDimension(request, m, catalog, d), m),
          CategoryDimension(request, m, catalog, d), today, outcome);
      case _ =>
    }
  }

  // ---- The workflow of a request ----

  datatype QueryStatus = Running | Blocked | ClarificationRequired | Success

  datatype ContractError = PayloadMissing

  function Envelope(t: Texts, a: AnswerType, primary: Option<Block>, blocks: map<string, Block>, withCatalog: bool,
    succeeded: bool): Result<Option<Payload>, ContractError>
  {
    var payload := RenderPayload(t, a, primary, blocks, withCatalog);
    if succeeded && payload.None? then Err(PayloadMissing) else Ok(payload)
  }

  /** What the language model, the confidence score, the guardrail and the databases say. */
  datatype Circumstances = Circumstances(
    dangerous: bool, needsClarification: bool, highConfidence: bool, drafted: Request,
    preflight: Spec -> Option<string>, outcome: Spec -> SpecOutcome)

  datatype Platform = Platform(catalog: Catalog, floats: Literals.Floats, texts: Texts, maxResultRows: nat, today: int)

  /** The request reaches the planning of its queries. */
  predicate PastTheGates(d: AnswerDecision, c: Circumstances) {
    !d.answerType.ChatHelp? && !c.dangerous && !c.needsClarification && c.highConfidence
  }

  function PlanOf(d: AnswerDecision, c: Circumstances, s: Platform): Result<SpecPlan, BuildError> {
    BuildPlan(d, c.drafted, s.catalog, s.today)
  }

  /** Governed, let through by the guardrail, and answered by the database. */
  ghost predicate Succeeds(d: AnswerDecision, c: Circumstances, s: Platform) {
    && PastTheGates(d, c) && Answerable(d, c.drafted, s.catalog, s.floats)
    && PlanOf(d, c, s).Ok? && c.preflight(PlanOf(d, c, s).value.primary).None?
    && c.outcome(PlanOf(d, c, s).value.primary).Done?
  }

  function RowsInBlocks(blocks: map<string, Block>, specs: seq<Spec>): nat {
    if specs == [] then 0
    else
      RowsInBlocks(blocks, specs[..|specs| - 1])
        + match BlockFor(blocks, specs[|specs| - 1].blockKey) case None => 0 case Some(b) => |b.rows|
  }

  function RowTotal(specs: seq<Spec>, outcome: Spec -> SpecOutcome): nat {
    if specs == [] then 0
    else
      var before := RowTotal(specs[..|specs| - 1], outcome);
      match outcome(specs[|specs| - 1]) case Done(rows, _) => before + |rows| case _ => before
  }

  lemma {:induction false} RowsInBlocksAre(blocks: map<string, Block>, specs: seq<Spec>, outcome: Spec -> SpecOutcome)
    requires forall s :: s in specs ==> BlockFor(blocks, s.blockKey) == BlockIf(s, outcome(s))
    ensures RowsInBlocks(blocks, specs) == RowTotal(specs, outcome)
  {
    if specs != [] { RowsInBlocksAre(blocks, specs[..|specs| - 1], outcome); }
  }

  /** With the main query done, the run holds the blocks of all queries done. */
  lemma RunOfPlan(p: SpecPlan, outcome: Spec -> SpecOutcome)
    requires DistinctKeys(AllSpecs(p)) && !p.primary.isOptional && forall s :: s in p.secondary ==> s.isOptional
    ensures var r := RunSpecs(p.primary.blockKey, AllSpecs(p), outcome);
      && (p.primary.blockKey in r.failures || r.primary.None? <==> !outcome(p.primary).Done?)
      && (outcome(p.primary).Done? ==>
            && r.primary == BlockIf(p.primary, outcome(p.primary)) && r.blocks == BlocksDone(AllSpecs(p), outcome)
            && RowsInBlocks(r.blocks, AllSpecs(p)) == RowTotal(AllSpecs(p), outcome)
            && r.totalMs == TotalMs(AllSpecs(p), outcome))
  {
    hide RunSpecs, BlocksDone, RowsInBlocks, RowTotal, TotalMs, BlockFor, BlockIf, DistinctKeys;
    var specs := AllSpecs(p);
    PrimaryBlock(p.primary.blockKey, specs, outcome);
    if outcome(p.primary).Done? {
      NoneStopped(p.primary.blockKey, specs, outcome);
      TriedAll(specs, outcome);
      BlocksAndFailuresSplit(p.primary.blockKey, specs, outcome);
      forall s | s in specs ensures BlockFor(BlocksDone(specs, outcome), s.blockKey) == BlockIf(s, outcome(s)) {
        FoundIffDone(specs, outcome, s);
      }
      RowsInBlocksAre(BlocksDone(specs, outcome), specs, outcome);
    }
  }

  class Workflow {
    var status: QueryStatus
    var payload: Option<Payload>
    var rowsReturned: nat
    var executionMs: nat
    var contractError: bool

    constructor ()
      ensures status == Running && payload == None && rowsReturned == 0 && executionMs == 0 && !contractError
    {
      status, payload, rowsReturned, executionMs, contractError := Running, None, 0, 0, false;
    }

    /** The stages of a request, each of which may end it. It succeeds exactly when it is governed
        and its main query is let through and answered, whatever becomes of the optional ones; it
        then carries the payload of its type over the queries done, their rows and their time. No
        request misses its payload, and none that does not succeed carries one. A request is left
        running, by an exception nobody handles, exactly if its planning ends in one. */
    method Run(d: AnswerDecision, c: Circumstances, s: Platform)
      requires status == Running && payload == None && rowsReturned == 0 && executionMs == 0 && !contractError
      modifies this
      ensures status.Success? <==> d.answerType.ChatHelp? || Succeeds(d, c, s)
      ensures status.ClarificationRequired? <==>
        !d.answerType.ChatHelp? && !c.dangerous && (c.needsClarification || !c.highConfidence)
      ensures status.Running? <==> PastTheGates(d, c) && Unhandled(d, c.drafted, s.catalog)
      ensures !contractError && (payload.Some? <==> status.Success?)
      ensures d.answerType.ChatHelp? ==> payload == Some(HelpView)
      ensures Succeeds(d, c, s) ==>
        && payload == Shown(s.texts, d.answerType, PlanOf(d, c, s).value, c.outcome)
        && rowsReturned == RowTotal(AllSpecs(PlanOf(d, c, s).value), c.outcome)
        && executionMs == TotalMs(AllSpecs(PlanOf(d, c, s).value), c.outcome)
      ensures !status.Success? ==> rowsReturned == 0 && executionMs == 0
    {
      hide BuildPlan, RunSpecs, RowsInBlocks, CompileSpec, Answerable, Unhandled, Escapes, AllCompile;
      hide AllSpecs, DistinctKeys;
      hide FirstRefusal;
      hide BlocksDone, TotalMs, RowTotal, ReportFrom, HeadlineFrom, RankingOf, SeriesOf, BreakdownOf, PageOf, BlockIf;
      if d.answerType.ChatHelp? {
        status, payload := Success, Some(HelpView);
        return;
      }
      if c.dangerous {
        status := Blocked;
        return;
      }
      if c.needsClarification || !c.highConfidence {
        status := ClarificationRequired;
        return;
      }
      var plan := BuildPlan(d, c.drafted, s.catalog, s.today);
      PlannedIffAnswerable(d, c.drafted, s.catalog, s.today, s.floats, s.maxResultRows);
      BuildEscapes(d, c.drafted, s.catalog, s.today);
      if plan.Err? { return; }
      var specs := AllSpecs(plan.value);
      var compiled := CompileSpecs(specs, s.catalog, s.floats, s.maxResultRows);
      if compiled.Err? {
        OnlyTablesEscape(d, c.drafted, s.catalog, s.today, s.floats, s.maxResultRows, compiled.error);
        if !Escapes(compiled.error) { status := Blocked; }
        return;
      }
      AnswerableDoesNotEscape(d, c.drafted, s.catalog, s.floats, s.today);
      if c.preflight(plan.value.primary).Some? {
        status := Blocked;
        return;
      }
      var executed := ExecuteAnswerPlan(plan.value, c.outcome);
      PlanShape(d, c.drafted, s.catalog, s.today);
      RunOfPlan(plan.value, c.outcome);
      if plan.value.primary.blockKey in executed.failures || executed.primary.None? {
        status := Blocked;
        return;
      }
      rowsReturned, executionMs := RowsInBlocks(executed.blocks, specs), executed.totalMs;
      var envelope := Envelope(s.texts, d.answerType, executed.primary, executed.blocks, false, true);
      status, contractError := if envelope.Ok? then Success else Blocked, envelope.Err?;
      payload := if envelope.Ok? then envelope.value else None;
    }
  }

  lemma AnswerableDoesNotEscape(d: AnswerDecision, request: Request, catalog: Catalog, floats: Literals.Floats,
    today: int)
    requires Answerable(d, request, catalog, floats) && BuildPlan(d, request, catalog, today).Ok?
    ensures !Unhandled(d, request, catalog)
  {
    hide Unhandled, BuildPlan;
    BuildEscapes(d, request, catalog, today);
  }
}
