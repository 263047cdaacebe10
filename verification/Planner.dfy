/** From an interpretation of a request to governed SQL: the catalogue lookups and checks of
    the planner, then the clauses of the compiler. */
module Planner {
  import opened Wrappers
  import opened AsciiText
  import opened Literals
  import opened Sql

  // ---- Catalogue ----

  datatype Grain = Grain(key: string, source: string, base: string, timeColumn: string, timeDimensionColumn: string)

  const ORDER := Grain("order", "fact.orders", "fo", "order_timestamp", "order_day")
  const TENDER := Grain("tender", "fact.tenders", "ft", "tender_timestamp", "tender_day")

  function GrainOf(key: string): (r: Option<Grain>)
    ensures r.Some? ==> r.value in {ORDER, TENDER} && r.value.key == key
  {
    if key == ORDER.key then Some(ORDER) else if key == TENDER.key then Some(TENDER) else None
  }

  /** A column name of a template, perhaps a placeholder the grain fills in. */
  datatype ColumnTemplate = Named(name: string) | TimeColumn | TimeDimensionColumn

  function Render(t: ColumnTemplate, grain: Grain): string {
    match t
    case Named(name) => name
    case TimeColumn => grain.timeColumn
    case TimeDimensionColumn => grain.timeDimensionColumn
  }

  /** `JOIN table {dimension_alias} ON {dimension_alias}.key = {base_alias}.baseColumn`. */
  datatype JoinPath = JoinPath(kind: JoinKind, table: string, key: ColumnTemplate, baseColumn: ColumnTemplate)

  const GRAIN_TABLE := "__grain__"

  datatype Dimension = Dimension(
    key: string, table: string, column: ColumnTemplate, joinPath: Option<JoinPath>, dataType: string)

  datatype Metric = Metric(
    key: string, grain: string, expression: Expression<ColumnTemplate>,
    allowedDimensions: seq<string>, allowedFilters: seq<string>)

  datatype Catalog = Catalog(
    metrics: map<string, Metric>, dimensions: map<string, Dimension>, filters: map<string, Dimension>)
  {
    /** What building the catalogue from stored rows gives. */
    ghost predicate Built() {
      && filters == dimensions
      && (forall k :: k in dimensions ==> dimensions[k].key == k)
      && (forall k :: k in metrics ==> metrics[k].key == k)
    }
  }

  /** Empty keys name nothing. */
  function Get<T>(entries: map<string, T>, key: string): Option<T> {
    if key != "" && key in entries then Some(entries[key]) else None
  }

  // ---- Request ----

  datatype FilterValue = FilterValue(operator: Option<string>, values: seq<Option<string>>)

  /** Days are ordinals; None is a date left blank. */
  datatype Period =
    | Missing
    | RollingDays(days: int)
    | SinceDate(start: Option<int>)
    | UntilDate(end: Option<int>)
    | ExactDate(date: Option<int>)
    | BetweenDates(from: Option<int>, to: Option<int>)
    | UnsupportedPeriod

  datatype Interpretation = Interpretation(
    metric: Option<string>,
    dimensions: seq<string>,
    filters: seq<(string, FilterValue)>,
    period: Period,
    limit: Option<int>,
    direction: Option<string>)

  // ---- Plan ----

  datatype PlannedDimension = PlannedDimension(definition: Dimension, expression: ColumnRef, join: Option<Join>)

  datatype PlannedFilter = PlannedFilter(
    definition: Dimension, operator: string, values: seq<string>, clause: Condition, join: Option<Join>)

  datatype Plan = Plan(
    metric: Metric, grain: Grain,
    dimensions: seq<PlannedDimension>, filters: seq<PlannedFilter>,
    period: seq<Condition>, joins: seq<Join>, orderBy: OrderBy, limit: nat)

  datatype PlanError =
    | MetricRequired
    | UnknownMetric
    | UnsupportedGrain
    | DisallowedDimension(key: string)
    | UnknownDimension(key: string)
    | InvalidJoinPath(key: string)
    | DisallowedFilter(key: string)
    | UnknownFilter(key: string)
    | InvalidFilterOperator(key: string)
    | MissingFilterValues(key: string)
    | InvalidFilterValue(key: string)
    | InvalidPeriod
    | InvalidLimit
    | InvalidSort

  const DEFAULT_LIMIT: int := 20

  function NormalizeLimit(limit: Option<int>, maxResultRows: nat): Result<nat, PlanError> {
    var raw := if limit.None? || limit.value == 0 then DEFAULT_LIMIT else limit.value;
    if raw <= 0 then Err(InvalidLimit) else Ok(if raw <= maxResultRows then raw else maxResultRows)
  }

  function DimensionAlias(key: string): string { "dim_" + key }

  function ResolveDimension(d: Dimension, grain: Grain): Result<(ColumnRef, Option<Join>), PlanError> {
    var column, alias := Render(d.column, grain), DimensionAlias(d.key);
    if d.table == GRAIN_TABLE then Ok((ColumnRef(grain.base, column), None))
    else match d.joinPath
      case None => Err(InvalidJoinPath(d.key))
      case Some(p) =>
        var join := Join(p.kind, p.table, alias, Render(p.key, grain), grain.base, Render(p.baseColumn, grain));
        Ok((ColumnRef(alias, column), Some(join)))
  }

  function AllowedOperators(dataType: string): set<string> {
    if dataType in {"date", "timestamp", "integer", "numeric"} then {"eq", "in", "between"} else {"eq", "in"}
  }

  function OperatorOf(f: FilterValue): string { f.operator.GetOr("eq") }

  predicate Filled(v: Option<string>) { v.Some? && v.value != "" }

  /** The values given, without nulls and empty texts. */
  function ValuesOf(values: seq<Option<string>>): (r: seq<string>)
    ensures forall v :: v in r <==> v != "" && Some(v) in values
  {
    if values == [] then []
    else
      var before, last := ValuesOf(values[..|values| - 1]), values[|values| - 1];
      if Filled(last) then before + [last.value] else before
  }

  /** Place i is the next after n to hold a value; the first of all if n is -1. */
  predicate NextFilled(values: seq<Option<string>>, n: int, i: int) {
    -1 <= n < i < |values| && Filled(values[i]) && forall k :: n < k < i ==> !Filled(values[k])
  }

  lemma {:induction false} ValuesOfAppend(a: seq<Option<string>>, b: seq<Option<string>>)
    ensures ValuesOf(a + b) == ValuesOf(a) + ValuesOf(b)
  {
    if b == [] {
      assert a + b == a;
    } else {
      assert (a + b)[..|a + b| - 1] == a + b[..|b| - 1];
      ValuesOfAppend(a, b[..|b| - 1]);
    }
  }

  lemma {:induction false} NoneFilled(values: seq<Option<string>>)
    requires forall v :: v in values ==> !Filled(v)
    ensures ValuesOf(values) == []
  {
    if values != [] { NoneFilled(values[..|values| - 1]); }
  }

  lemma FirstOfRest(values: seq<Option<string>>, n: int, i: int)
    requires NextFilled(values, n, i)
    ensures ValuesOf(values[n + 1..]) == [values[i].value] + ValuesOf(values[i + 1..])
  {
    var blank, rest := values[n + 1..i], values[i + 1..];
    assert values[n + 1..] == blank + ([values[i]] + rest);
    ValuesOfAppend(blank, [values[i]] + rest);
    ValuesOfAppend([values[i]], rest);
    NoneFilled(blank);
    assert [values[i]][..0] == [];
  }

  lemma {:induction false} SomeNext(values: seq<Option<string>>, n: int) returns (i: int)
    requires -1 <= n < |values| && ValuesOf(values[n + 1..]) != []
    ensures NextFilled(values, n, i)
    decreases |values| - n
  {
    var v := ValuesOf(values[n + 1..])[0];
    assert v in ValuesOf(values[n + 1..]) && Some(v) in values[n + 1..];
    if Filled(values[n + 1]) {
      i := n + 1;
    } else {
      assert values[n + 1..] == [values[n + 1]] + values[n + 2..];
      ValuesOfAppend([values[n + 1]], values[n + 2..]);
      assert [values[n + 1]][..0] == [];
      i := SomeNext(values, n + 1);
    }
  }

  /** The first and second value are those at the first and the next place that holds one. */
  lemma ValuesInOrder(values: seq<Option<string>>)
    ensures ValuesOf(values) != [] <==> exists i :: NextFilled(values, -1, i)
    ensures |ValuesOf(values)| >= 2 <==> exists i, j :: NextFilled(values, -1, i) && NextFilled(values, i, j)
    ensures forall i :: NextFilled(values, -1, i) ==> ValuesOf(values) != [] && ValuesOf(values)[0] == values[i].value
    ensures forall i, j :: NextFilled(values, -1, i) && NextFilled(values, i, j) ==>
      |ValuesOf(values)| >= 2 && ValuesOf(values)[1] == values[j].value
  {
    hide ValuesOf;
    assert values[0..] == values;
    forall i | NextFilled(values, -1, i)
      ensures ValuesOf(values) == [values[i].value] + ValuesOf(values[i + 1..])
    {
      FirstOfRest(values, -1, i);
    }
    forall i, j | NextFilled(values, -1, i) && NextFilled(values, i, j)
      ensures ValuesOf(values) == [values[i].value] + ([values[j].value] + ValuesOf(values[j + 1..]))
    {
      FirstOfRest(values, i, j);
    }
    if ValuesOf(values) != [] {
      var i := SomeNext(values, -1);
      if |ValuesOf(values)| >= 2 {
        var j := SomeNext(values, i);
        assert NextFilled(values, -1, i) && NextFilled(values, i, j);
      }
    }
  }

  function ReadValues(floats: Floats, d: Dimension, values: seq<string>): Result<seq<Literal>, PlanError> {
    if values == [] then Ok([])
    else
      var before :- ReadValues(floats, d, values[..|values| - 1]);
      var last :- FilterLiteral(floats, d, values[|values| - 1]);
      Ok(before + [last])
  }

  function FilterLiteral(floats: Floats, d: Dimension, value: string): Result<Literal, PlanError> {
    match ReadValue(floats, d.dataType, value)
    case Err(_) => Err(PlanError.InvalidFilterValue(d.key))
    case Ok(l) => Ok(l)
  }

  function FilterClause(floats: Floats, d: Dimension, grain: Grain, operator: string, values: seq<string>)
    : Result<(Condition, Option<Join>), PlanError>
  {
    if operator !in AllowedOperators(d.dataType) then Err(InvalidFilterOperator(d.key))
    else if values == [] then Err(MissingFilterValues(d.key))
    else
      var (col, join) :- ResolveDimension(d, grain);
      if operator == "eq" then
        var l :- FilterLiteral(floats, d, values[0]);
        Ok((Equals(col, l), join))
      else if operator == "in" then
        var ls :- ReadValues(floats, d, values);
        Ok((OneOf(col, ls), join))
      else if |values| >= 2 then
        var lo :- FilterLiteral(floats, d, values[0]);
        var hi :- FilterLiteral(floats, d, values[1]);
        Ok((Between(col, lo, hi), join))
      else Err(InvalidFilterOperator(d.key))
  }

  function PeriodClauses(p: Period, time: ColumnRef): Result<seq<Condition>, PlanError> {
    match p
    case Missing => Ok([])
    case RollingDays(days) => if days <= 0 then Err(InvalidPeriod) else Ok([SinceDaysAgo(time, days)])
    case SinceDate(start) => if start.None? then Ok([]) else Ok([OnOrAfter(time, start.value)])
    case UntilDate(end) => if end.None? then Ok([]) else Ok([BeforeEndOf(time, end.value)])
    case ExactDate(date) => if date.None? then Ok([]) else Ok([WithinDay(time, date.value)])
    case BetweenDates(from, to) =>
      if from.None? || to.None? then Err(InvalidPeriod)
      else Ok([OnOrAfter(time, from.value), BeforeEndOf(time, to.value)])
    case UnsupportedPeriod => Err(InvalidPeriod)
  }

  function PlanDimension(catalog: Catalog, m: Metric, grain: Grain, key: string): Result<PlannedDimension, PlanError> {
    if m.allowedDimensions != [] && key !in m.allowedDimensions then Err(DisallowedDimension(key))
    else match Get(catalog.dimensions, key)
      case None => Err(UnknownDimension(key))
      case Some(d) =>
        var (expression, join) :- ResolveDimension(d, grain);
        Ok(PlannedDimension(d, expression, join))
  }

  function PlanDimensions(catalog: Catalog, m: Metric, grain: Grain, keys: seq<string>)
    : Result<seq<PlannedDimension>, PlanError>
  {
    if keys == [] then Ok([])
    else
      var before :- PlanDimensions(catalog, m, grain, keys[..|keys| - 1]);
      var last :- PlanDimension(catalog, m, grain, keys[|keys| - 1]);
      Ok(before + [last])
  }

  function PlanFilter(catalog: Catalog, floats: Floats, m: Metric, grain: Grain, filter: (string, FilterValue))
    : Result<PlannedFilter, PlanError>
  {
    if m.allowedFilters != [] && filter.0 !in m.allowedFilters then Err(DisallowedFilter(filter.0))
    else match Get(catalog.filters, filter.0)
      case None => Err(UnknownFilter(filter.0))
      case Some(d) =>
        var operator, values := OperatorOf(filter.1), ValuesOf(filter.1.values);
        var (clause, join) :- FilterClause(floats, d, grain, operator, values);
        Ok(PlannedFilter(d, operator, values, clause, join))
  }

  function PlanFilters(catalog: Catalog, floats: Floats, m: Metric, grain: Grain, filters: seq<(string, FilterValue)>)
    : Result<seq<PlannedFilter>, PlanError>
  {
    if filters == [] then Ok([])
    else
      var before :- PlanFilters(catalog, floats, m, grain, filters[..|filters| - 1]);
      var last :- PlanFilter(catalog, floats, m, grain, filters[|filters| - 1]);
      Ok(before + [last])
  }

  function DimensionJoins(dims: seq<PlannedDimension>): (r: seq<Join>)
    ensures forall j :: j in r <==> exists i :: 0 <= i < |dims| && dims[i].join == Some(j)
  {
    if dims == [] then []
    else
      var before, last := DimensionJoins(dims[..|dims| - 1]), dims[|dims| - 1];
      assert dims == dims[..|dims| - 1] + [last];
      if last.join.Some? then before + [last.join.value] else before
  }

  function FilterJoins(filters: seq<PlannedFilter>): (r: seq<Join>)
    ensures forall j :: j in r <==> exists i :: 0 <= i < |filters| && filters[i].join == Some(j)
  {
    if filters == [] then []
    else
      var before, last := FilterJoins(filters[..|filters| - 1]), filters[|filters| - 1];
      assert filters == filters[..|filters| - 1] + [last];
      if last.join.Some? then before + [last.join.value] else before
  }

  const DAY := "day"

  function OrderOf(m: Metric, dimensions: seq<string>, direction: Option<string>): Result<OrderBy, PlanError> {
    var lowered := Lower(direction.GetOr("desc"));
    if lowered !in {"asc", "desc"} then Err(InvalidSort)
    else if DAY in dimensions then Ok(OrderBy(DAY, true))
    else Ok(OrderBy(m.key, lowered == "asc"))
  }

  /** The plan a request stands for, or the first complaint about it. */
  function PlanFor(i: Interpretation, catalog: Catalog, floats: Floats, maxResultRows: nat): Result<Plan, PlanError> {
    match Get(catalog.metrics, i.metric.GetOr(""))
    case None => Err(if i.metric.GetOr("") == "" then MetricRequired else UnknownMetric)
    case Some(m) =>
      match GrainOf(m.grain)
      case None => Err(UnsupportedGrain)
      case Some(grain) =>
        var dims :- PlanDimensions(catalog, m, grain, i.dimensions);
        var filters :- PlanFilters(catalog, floats, m, grain, i.filters);
        var period :- PeriodClauses(i.period, ColumnRef(grain.base, grain.timeColumn));
        var limit :- NormalizeLimit(i.limit, maxResultRows);
        var orderBy :- OrderOf(m, i.dimensions, i.direction);
        Ok(Plan(m, grain, dims, filters, period,
          FirstOccurrences(DimensionJoins(dims) + FilterJoins(filters)), orderBy, limit))
  }

  // ---- The loops ----

  method Dedupe(items: seq<Join>) returns (result: seq<Join>)
    ensures result == FirstOccurrences(items)
  {
    var seen := {};
    result := [];
    for i := 0 to |items|
      invariant result == FirstOccurrences(items[..i])
      invariant seen == set j | j in items[..i]
    {
      assert items[..i + 1][..i] == items[..i];
      if items[i] !in seen {
        result := result + [items[i]];
        seen := seen + {items[i]};
      }
    }
    assert items[..|items|] == items;
  }

  function Step<A>(sofar: Result<seq<A>, PlanError>, next: Result<A, PlanError>): Result<seq<A>, PlanError> {
    var before :- sofar;
    var last :- next;
    Ok(before + [last])
  }

  /** One more dimension; a complaint about an earlier one stays the complaint. */
  lemma {:induction false} DimensionsUpTo(catalog: Catalog, m: Metric, grain: Grain, keys: seq<string>, n: nat)
    requires n < |keys|
    ensures PlanDimensions(catalog, m, grain, keys[..n + 1])
         == Step(PlanDimensions(catalog, m, grain, keys[..n]), PlanDimension(catalog, m, grain, keys[n]))
    ensures PlanDimensions(catalog, m, grain, keys[..n + 1]).Err? ==>
      PlanDimensions(catalog, m, grain, keys) == PlanDimensions(catalog, m, grain, keys[..n + 1])
    decreases |keys|
  {
    hide PlanDimension;
    if n + 1 < |keys| {
      var init := keys[..|keys| - 1];
      assert init[..n] == keys[..n] && init[..n + 1] == keys[..n + 1];
      DimensionsUpTo(catalog, m, grain, init, n);
    } else {
      assert keys[..n + 1] == keys && keys[..n + 1][..n] == keys[..n];
    }
  }

  lemma {:induction false} FiltersUpTo(
    catalog: Catalog, floats: Floats, m: Metric, grain: Grain, filters: seq<(string, FilterValue)>, n: nat)
    requires n < |filters|
    ensures PlanFilters(catalog, floats, m, grain, filters[..n + 1])
         == Step(PlanFilters(catalog, floats, m, grain, filters[..n]),
              PlanFilter(catalog, floats, m, grain, filters[n]))
    ensures PlanFilters(catalog, floats, m, grain, filters[..n + 1]).Err? ==>
      PlanFilters(catalog, floats, m, grain, filters) == PlanFilters(catalog, floats, m, grain, filters[..n + 1])
    decreases |filters|
  {
    hide PlanFilter;
    if n + 1 < |filters| {
      var init := filters[..|filters| - 1];
      assert init[..n] == filters[..n] && init[..n + 1] == filters[..n + 1];
      FiltersUpTo(catalog, floats, m, grain, init, n);
    } else {
      assert filters[..n + 1] == filters && filters[..n + 1][..n] == filters[..n];
    }
  }

  lemma OneMoreDimensionJoin(dims: seq<PlannedDimension>, d: PlannedDimension)
    ensures DimensionJoins(dims + [d]) == DimensionJoins(dims) + (if d.join.Some? then [d.join.value] else [])
  {
    assert (dims + [d])[..|dims|] == dims;
  }

  lemma OneMoreFilterJoin(filters: seq<PlannedFilter>, f: PlannedFilter)
    ensures FilterJoins(filters + [f]) == FilterJoins(filters) + (if f.join.Some? then [f.join.value] else [])
  {
    assert (filters + [f])[..|filters|] == filters;
  }

  lemma NothingPlanned(catalog: Catalog, floats: Floats, m: Metric, grain: Grain)
    ensures PlanDimensions(catalog, m, grain, []) == Ok([]) && DimensionJoins([]) == []
    ensures PlanFilters(catalog, floats, m, grain, []) == Ok([]) && FilterJoins([]) == []
  {
  }

  method PlanSqlQuery(i: Interpretation, catalog: Catalog, floats: Floats, maxResultRows: nat)
    returns (r: Result<Plan, PlanError>)
    ensures r == PlanFor(i, catalog, floats, maxResultRows)
  {
    hide PlanDimension, PlanFilter, PlanDimensions, PlanFilters, DimensionJoins, FilterJoins, PeriodClauses;
    hide NormalizeLimit, OrderOf;
    var metric := Get(catalog.metrics, i.metric.GetOr(""));
    if metric.None? {
      return Err(if i.metric.GetOr("") == "" then MetricRequired else UnknownMetric);
    }
    var m := metric.value;
    var found := GrainOf(m.grain);
    if found.None? { return Err(UnsupportedGrain); }
    var grain := found.value;

    var dimensions: seq<PlannedDimension>, filters: seq<PlannedFilter>, joins: seq<Join> := [], [], [];
    NothingPlanned(catalog, floats, m, grain);
    for n := 0 to |i.dimensions|
      invariant PlanDimensions(catalog, m, grain, i.dimensions[..n]) == Ok(dimensions)
      invariant joins == DimensionJoins(dimensions)
    {
      DimensionsUpTo(catalog, m, grain, i.dimensions, n);
      var planned := PlanDimension(catalog, m, grain, i.dimensions[n]);
      if planned.Err? { return Err(planned.error); }
      OneMoreDimensionJoin(dimensions, planned.value);
      if planned.value.join.Some? { joins := joins + [planned.value.join.value]; }
      dimensions := dimensions + [planned.value];
    }
    assert i.dimensions[..|i.dimensions|] == i.dimensions;

    for n := 0 to |i.filters|
      invariant PlanFilters(catalog, floats, m, grain, i.filters[..n]) == Ok(filters)
      invariant joins == DimensionJoins(dimensions) + FilterJoins(filters)
    {
      FiltersUpTo(catalog, floats, m, grain, i.filters, n);
      var planned := PlanFilter(catalog, floats, m, grain, i.filters[n]);
      if planned.Err? { return Err(planned.error); }
      OneMoreFilterJoin(filters, planned.value);
      if planned.value.join.Some? { joins := joins + [planned.value.join.value]; }
      filters := filters + [planned.value];
    }
    assert i.filters[..|i.filters|] == i.filters;

    var period := PeriodClauses(i.period, ColumnRef(grain.base, grain.timeColumn));
    if period.Err? { return Err(period.error); }
    joins := Dedupe(joins);
    var limit := NormalizeLimit(i.limit, maxResultRows);
    if limit.Err? { return Err(limit.error); }
    var orderBy := OrderOf(m, i.dimensions, i.direction);
    if orderBy.Err? { return Err(orderBy.error); }
    return Ok(Plan(m, grain, dimensions, filters, period.value, joins, orderBy.value, limit.value));
  }

  // ---- Clauses of the query ----

  function RenderParts(parts: seq<Part<ColumnTemplate>>, grain: Grain): (r: seq<Part<ColumnRef>>)
    ensures |r| == |parts|
  {
    seq(|parts|, k requires 0 <= k < |parts| =>
      match parts[k]
      case Verbatim(text) => Verbatim(text)
      case Reference(c) => Reference(ColumnRef(grain.base, Render(c, grain))))
  }

  function Clauses(filters: seq<PlannedFilter>): seq<Condition> {
    seq(|filters|, i requires 0 <= i < |filters| => filters[i].clause)
  }

  function Compile(p: Plan): Query {
    Query(
      seq(|p.dimensions|, i requires 0 <= i < |p.dimensions| =>
        (p.dimensions[i].expression, p.dimensions[i].definition.key)),
      Expression(RenderParts(p.metric.expression.parts, p.grain), p.metric.expression.compute), p.metric.key,
      p.grain.source, p.grain.base,
      p.joins,
      Clauses(p.filters) + p.period,
      seq(|p.dimensions|, i requires 0 <= i < |p.dimensions| => p.dimensions[i].expression),
      p.orderBy,
      p.limit)
  }

  // ---- Which requests are accepted ----

  /** The join path must be there unless the column lies on the fact table. */
  predicate Joinable(d: Dimension) { d.table == GRAIN_TABLE || d.joinPath.Some? }

  predicate Permitted(allowed: seq<string>, key: string) { allowed == [] || key in allowed }

  predicate Readable(floats: Floats, d: Dimension, value: string) { ReadValue(floats, d.dataType, value).Ok? }

  ghost predicate GovernedDimension(m: Metric, catalog: Catalog, key: string) {
    && Permitted(m.allowedDimensions, key)
    && key != "" && key in catalog.dimensions && Joinable(catalog.dimensions[key])
  }

  ghost predicate GovernedFilter(m: Metric, catalog: Catalog, floats: Floats, key: string, f: FilterValue) {
    && Permitted(m.allowedFilters, key)
    && key != "" && key in catalog.filters && Joinable(catalog.filters[key])
    && var d, values := catalog.filters[key], f.values;
      match f.operator.GetOr("eq")
      case "eq" => exists i :: NextFilled(values, -1, i) && Readable(floats, d, values[i].value)
      case "in" =>
        && (exists v :: v in values && Filled(v))
        && forall v :: v in values && Filled(v) ==> Readable(floats, d, v.value)
      case "between" =>
        && d.dataType in {"date", "timestamp", "integer", "numeric"}
        && (exists i, j :: NextFilled(values, -1, i) && NextFilled(values, i, j)
              && Readable(floats, d, values[i].value) && Readable(floats, d, values[j].value))
      case _ => false
  }

  ghost predicate GovernedPeriod(p: Period) {
    match p
    case RollingDays(days) => days > 0
    case BetweenDates(from, to) => from.Some? && to.Some?
    case UnsupportedPeriod => false
    case _ => true
  }

  ghost predicate Governed(i: Interpretation, catalog: Catalog, floats: Floats) {
    && i.metric.Some? && i.metric.value != "" && i.metric.value in catalog.metrics
    && var m := catalog.metrics[i.metric.value];
    && m.grain in {"order", "tender"}
    && (forall key :: key in i.dimensions ==> GovernedDimension(m, catalog, key))
    && (forall f :: f in i.filters ==> GovernedFilter(m, catalog, floats, f.0, f.1))
    && GovernedPeriod(i.period)
    && (i.limit.Some? ==> i.limit.value >= 0)
    && (i.direction.Some? ==> Lower(i.direction.value) in {"asc", "desc"})
  }

  lemma {:induction false} ReadValuesSucceeds(floats: Floats, d: Dimension, values: seq<string>)
    ensures ReadValues(floats, d, values).Ok? <==> forall v :: v in values ==> Readable(floats, d, v)
    ensures ReadValues(floats, d, values).Ok? ==> |ReadValues(floats, d, values).value| == |values|
    ensures ReadValues(floats, d, values).Ok? ==> forall k :: 0 <= k < |values| ==>
      ReadValue(floats, d.dataType, values[k]) == Ok(ReadValues(floats, d, values).value[k])
  {
    hide ReadValue;
    if values != [] {
      var last := values[|values| - 1];
      ReadValuesSucceeds(floats, d, values[..|values| - 1]);
      assert values == values[..|values| - 1] + [last];
      assert FilterLiteral(floats, d, last).Ok? <==> Readable(floats, d, last);
    }
  }

  lemma {:induction false} DimensionsSucceed(catalog: Catalog, m: Metric, grain: Grain, keys: seq<string>)
    ensures var r := PlanDimensions(catalog, m, grain, keys);
      && (r.Ok? <==> forall key :: key in keys ==> GovernedDimension(m, catalog, key))
      && (r.Ok? ==> |r.value| == |keys| && forall k :: 0 <= k < |keys| ==>
        PlanDimension(catalog, m, grain, keys[k]) == Ok(r.value[k]))
  {
    if keys != [] {
      var last := keys[|keys| - 1];
      DimensionsSucceed(catalog, m, grain, keys[..|keys| - 1]);
      assert keys == keys[..|keys| - 1] + [last];
      assert PlanDimension(catalog, m, grain, last).Ok? <==> GovernedDimension(m, catalog, last);
    }
  }

  lemma FilterSucceeds(catalog: Catalog, floats: Floats, m: Metric, grain: Grain, f: (string, FilterValue))
    ensures PlanFilter(catalog, floats, m, grain, f).Ok? <==> GovernedFilter(m, catalog, floats, f.0, f.1)
  {
    hide ReadValue, ReadValues;
    hide NextFilled, ValuesOf;
    var values := f.1.values;
    ValuesInOrder(values);
    if f.0 in catalog.filters {
      var d, given := catalog.filters[f.0], ValuesOf(values);
      ReadValuesSucceeds(floats, d, given);
      if given != [] { assert Some(given[0]) in values && Filled(Some(given[0])); }
      forall v | v in values && Filled(v) ensures v.value in given { assert v == Some(v.value); }
    }
  }

  lemma {:induction false} FiltersSucceed(
    catalog: Catalog, floats: Floats, m: Metric, grain: Grain, filters: seq<(string, FilterValue)>)
    ensures var r := PlanFilters(catalog, floats, m, grain, filters);
      && (r.Ok? <==> forall f :: f in filters ==> GovernedFilter(m, catalog, floats, f.0, f.1))
      && (r.Ok? ==> |r.value| == |filters| && forall k :: 0 <= k < |filters| ==>
        PlanFilter(catalog, floats, m, grain, filters[k]) == Ok(r.value[k]))
  {
    hide PlanFilter, GovernedFilter;
    if filters != [] {
      var last := filters[|filters| - 1];
      FiltersSucceed(catalog, floats, m, grain, filters[..|filters| - 1]);
      assert filters == filters[..|filters| - 1] + [last];
      FilterSucceeds(catalog, floats, m, grain, last);
    }
  }

  /** Exactly the governed requests are planned, and no plan asks for more rows than allowed. */
  lemma PlannedIffGoverned(i: Interpretation, catalog: Catalog, floats: Floats, maxResultRows: nat)
    ensures PlanFor(i, catalog, floats, maxResultRows).Ok? <==> Governed(i, catalog, floats)
    ensures var r := PlanFor(i, catalog, floats, maxResultRows);
      r.Ok? ==>
        && r.value.limit <= maxResultRows
        && r.value.limit <= (if i.limit.Some? && i.limit.value != 0 then i.limit.value else 20)
  {
    hide PlanDimensions, PlanFilters, DimensionJoins, FilterJoins, Lower;
    hide GovernedDimension, GovernedFilter;
    if i.metric.Some? && i.metric.value in catalog.metrics {
      var m := catalog.metrics[i.metric.value];
      var grain := GrainOf(m.grain).GetOr(ORDER);
      DimensionsSucceed(catalog, m, grain, i.dimensions);
      FiltersSucceed(catalog, floats, m, grain, i.filters);
      assert Lower("desc") == "desc" by { LowerDesc(); }
    }
  }

  lemma LowerDesc()
    ensures Lower("desc") == "desc"
  {
  }
}
