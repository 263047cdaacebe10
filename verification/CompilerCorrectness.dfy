/** What a request means, read directly off the fact rows, and the proof that the compiled
    query has that meaning. */
module CompilerCorrectness {
  import opened Wrappers
  import opened Literals
  import opened Sql
  import opened Planner
  import AsciiText
  import Calendar

  // ---- The direct meaning: fact rows ----

  /** A governed request with its catalogue entries looked up. */
  datatype Question = Question(
    metric: Metric, grain: Grain, dimensions: seq<Dimension>, filters: seq<(Dimension, FilterValue)>, period: Period)

  ghost function Asked(i: Interpretation, catalog: Catalog, floats: Floats): Question
    requires catalog.Built() && Governed(i, catalog, floats)
  {
    var m := catalog.metrics[i.metric.value];
    Question(
      m, if m.grain == "order" then ORDER else TENDER,
      seq(|i.dimensions|, k requires 0 <= k < |i.dimensions| =>
        assert GovernedDimension(m, catalog, i.dimensions[k]);
        catalog.dimensions[i.dimensions[k]]),
      seq(|i.filters|, k requires 0 <= k < |i.filters| =>
        assert GovernedFilter(m, catalog, floats, i.filters[k].0, i.filters[k].1);
        (catalog.dimensions[i.filters[k].0], i.filters[k].1)),
      i.period)
  }

  /** The first row with this key, if any. */
  function Lookup(rows: seq<Record>, key: string, v: Value): (r: Option<Record>)
    ensures r.Some? ==> r.value in rows && Field(r.value, key) == v
  {
    if rows == [] || v == Null then None
    else if Field(rows[0], key) == v then Some(rows[0])
    else Lookup(rows[1..], key, v)
  }

  /** The dimension row a fact row points to. */
  function PointedRow(db: Database, grain: Grain, p: JoinPath, fact: Record): Option<Record> {
    Lookup(Rows(db, p.table), Render(p.key, grain), Field(fact, Render(p.baseColumn, grain)))
  }

  function DimensionValue(db: Database, grain: Grain, d: Dimension, fact: Record): Value {
    var column := Render(d.column, grain);
    if d.table == GRAIN_TABLE then Field(fact, column)
    else if d.joinPath.None? then Null
    else
      var target := PointedRow(db, grain, d.joinPath.value, fact);
      if target.None? then Null else Field(target.value, column)
  }

  /** Only an inner join without a target loses the fact row. */
  predicate Linked(db: Database, grain: Grain, d: Dimension, fact: Record) {
    || d.table == GRAIN_TABLE
    || (d.joinPath.Some? && (d.joinPath.value.kind.Left? || PointedRow(db, grain, d.joinPath.value, fact).Some?))
  }

  predicate SameAs(floats: Floats, d: Dimension, value: string, v: Value) {
    var l := ReadValue(floats, d.dataType, value);
    l.Ok? && LiteralValue(l.value) == v
  }

  predicate Matches(floats: Floats, d: Dimension, f: FilterValue, v: Value) {
    var values := f.values;
    && v != Null
    && match f.operator.GetOr("eq")
       case "eq" => exists i :: 0 <= i < |values| && NextFilled(values, -1, i) && SameAs(floats, d, values[i].value, v)
       case "in" => exists i :: 0 <= i < |values| && Filled(values[i]) && SameAs(floats, d, values[i].value, v)
       case _ =>
         (exists i, j :: 0 <= i < j < |values| && NextFilled(values, -1, i) && NextFilled(values, i, j)
            && Encloses(floats, d, values[i].value, values[j].value, v))
  }

  predicate Encloses(floats: Floats, d: Dimension, low: string, high: string, v: Value) {
    var lo, hi := ReadValue(floats, d.dataType, low), ReadValue(floats, d.dataType, high);
    lo.Ok? && hi.Ok? && AtMost(LiteralValue(lo.value), v) && AtMost(v, LiteralValue(hi.value))
  }

  /** The moments a period covers: from the first on and before the second; None is unbounded. */
  function Window(p: Period, today: int): (Option<int>, Option<int>) {
    match p
    case RollingDays(days) => (Some(StartOfDay(today - days)), None)
    case SinceDate(Some(start)) => (Some(StartOfDay(start)), None)
    case UntilDate(Some(end)) => (None, Some(StartOfDay(end + 1)))
    case ExactDate(Some(date)) => (Some(StartOfDay(date)), Some(StartOfDay(date + 1)))
    case BetweenDates(Some(from), Some(to)) => (Some(StartOfDay(from)), Some(StartOfDay(to + 1)))
    case _ => (None, None)
  }

  predicate Within(w: (Option<int>, Option<int>), micros: int) {
    (w.0.Some? ==> w.0.value <= micros) && (w.1.Some? ==> micros < w.1.value)
  }

  predicate InPeriod(p: Period, today: int, v: Value) {
    Window(p, today) == (None, None) || (v.Moment? && Within(Window(p, today), v.micros))
  }

  predicate Qualifies(q: Question, floats: Floats, db: Database, today: int, fact: Record) {
    && (forall d :: d in q.dimensions ==> Linked(db, q.grain, d, fact))
    && (forall f :: f in q.filters ==>
        Linked(db, q.grain, f.0, fact) && Matches(floats, f.0, f.1, DimensionValue(db, q.grain, f.0, fact)))
    && InPeriod(q.period, today, Field(fact, q.grain.timeColumn))
  }

  /** The fact rows asked about, each once, in order. */
  function Facts(q: Question, floats: Floats, db: Database, today: int, rows: seq<Record>): seq<Record> {
    if rows == [] then []
    else
      (if Qualifies(q, floats, db, today, rows[0]) then [rows[0]] else [])
        + Facts(q, floats, db, today, rows[1..])
  }

  // ---- The direct meaning: a fold into groups ----

  datatype Group = Group(key: seq<Value>, rows: seq<Record>)

  function KeyOf(q: Question, db: Database, fact: Record): (r: seq<Value>)
    ensures |r| == |q.dimensions|
  {
    seq(|q.dimensions|, k requires 0 <= k < |q.dimensions| => DimensionValue(db, q.grain, q.dimensions[k], fact))
  }

  function AddRow(groups: seq<Group>, key: seq<Value>, fact: Record): seq<Group> {
    if groups == [] then [Group(key, [fact])]
    else if groups[0].key == key then [Group(key, groups[0].rows + [fact])] + groups[1..]
    else [groups[0]] + AddRow(groups[1..], key, fact)
  }

  function Grouped(q: Question, db: Database, facts: seq<Record>): seq<Group> {
    if facts == [] then []
    else
      var last := facts[|facts| - 1];
      AddRow(Grouped(q, db, facts[..|facts| - 1]), KeyOf(q, db, last), last)
  }

  function FactField(grain: Grain): (Record, ColumnTemplate) -> Value {
    (fact, c) => Field(fact, Render(c, grain))
  }

  function MetricValue(q: Question, facts: seq<Record>): Value {
    Aggregated(q.metric.expression, facts, FactField(q.grain))
  }

  /** Each group's key and metric value; without dimensions one figure over all rows. */
  function Results(q: Question, floats: Floats, db: Database, today: int): seq<Output> {
    var facts := Facts(q, floats, db, today, Rows(db, q.grain.source));
    if q.dimensions == [] then [Output([], MetricValue(q, facts))]
    else
      var groups := Grouped(q, db, facts);
      seq(|groups|, k requires 0 <= k < |groups| => Output(groups[k].key, MetricValue(q, groups[k].rows)))
  }

  // ---- Keys of the dimension tables ----

  /** No two rows have the same key; nulls never join. */
  ghost predicate UniqueKey(rows: seq<Record>, key: string) {
    forall i, j :: 0 <= i < j < |rows| ==> Field(rows[i], key) == Null || Field(rows[i], key) != Field(rows[j], key)
  }

  ghost predicate DimensionKeysUnique(catalog: Catalog, grain: Grain, db: Database) {
    forall k :: k in catalog.dimensions && catalog.dimensions[k].joinPath.Some? ==>
      var p := catalog.dimensions[k].joinPath.value;
      UniqueKey(Rows(db, p.table), Render(p.key, grain))
  }

  lemma {:induction false} NoPartners(rows: seq<Record>, key: string, v: Value)
    requires v == Null || forall r :: r in rows ==> Field(r, key) != v
    ensures Partners(rows, key, v) == []
  {
    if rows != [] { NoPartners(rows[1..], key, v); }
  }

  lemma {:induction false} UniquePartner(rows: seq<Record>, key: string, v: Value)
    requires UniqueKey(rows, key)
    ensures var found := Lookup(rows, key, v);
      Partners(rows, key, v) == if found.Some? then [found.value] else []
  {
    if rows == [] {
    } else if v == Null || Field(rows[0], key) == v {
      forall r | r in rows[1..] ensures v == Null || Field(r, key) != v {
        var n :| 0 <= n < |rows[1..]| && rows[1..][n] == r;
        assert rows[n + 1] == r;
      }
      NoPartners(rows[1..], key, v);
    } else {
      UniquePartner(rows[1..], key, v);
    }
  }

  /** Joining never multiplies a row exactly when the key is unique. */
  lemma {:induction false} NoFanOutIffUnique(rows: seq<Record>, key: string)
    ensures (forall v :: |Partners(rows, key, v)| <= 1) <==> UniqueKey(rows, key)
  {
    if UniqueKey(rows, key) {
      forall v ensures |Partners(rows, key, v)| <= 1 { UniquePartner(rows, key, v); }
    } else {
      var i, j :| 0 <= i < j < |rows| && Field(rows[i], key) != Null && Field(rows[i], key) == Field(rows[j], key);
      var v := Field(rows[i], key);
      TwoPartners(rows, key, v, i, j);
    }
  }

  lemma {:induction false} HasPartner(rows: seq<Record>, key: string, v: Value, n: nat)
    requires n < |rows| && v != Null && Field(rows[n], key) == v
    ensures Partners(rows, key, v) != []
  {
    if n > 0 { HasPartner(rows[1..], key, v, n - 1); }
  }

  lemma {:induction false} TwoPartners(rows: seq<Record>, key: string, v: Value, i: nat, j: nat)
    requires i < j < |rows| && v != Null && Field(rows[i], key) == v && Field(rows[j], key) == v
    ensures |Partners(rows, key, v)| >= 2
  {
    if i > 0 {
      TwoPartners(rows[1..], key, v, i - 1, j - 1);
    } else {
      HasPartner(rows[1..], key, v, j - 1);
    }
  }

  // ---- Joins, one row at a time ----

  function JoinTarget(db: Database, j: Join, fact: Record): Option<Record> {
    Lookup(Rows(db, j.table), j.key, Field(fact, j.baseColumn))
  }

  ghost predicate JoinsApart(joins: seq<Join>, base: string) {
    && (forall i, j :: 0 <= i < j < |joins| ==> joins[i].alias != joins[j].alias)
    && (forall j :: j in joins ==> j.base == base && j.alias != base)
  }

  ghost predicate JoinsUnique(db: Database, joins: seq<Join>) {
    forall j :: j in joins ==> UniqueKey(Rows(db, j.table), j.key)
  }

  /** What an alias is bound to after joining. */
  function Bound(db: Database, j: Join, fact: Record): Record {
    var target := JoinTarget(db, j, fact);
    if target.Some? then target.value else map[]
  }

  ghost predicate Keeps(db: Database, joins: seq<Join>, fact: Record) {
    forall j :: j in joins ==> j.kind.Left? || JoinTarget(db, j, fact).Some?
  }

  ghost predicate BindsAll(db: Database, joins: seq<Join>, fact: Record, env: Env) {
    forall j :: j in joins ==> j.alias in env && env[j.alias] == Bound(db, j, fact)
  }

  lemma OneJoin(db: Database, j: Join, env: Env, fact: Record)
    requires UniqueKey(Rows(db, j.table), j.key)
    requires j.base in env && env[j.base] == fact
    ensures JoinRow(db, j, env) ==
      if j.kind.Left? || JoinTarget(db, j, fact).Some? then [env[j.alias := Bound(db, j, fact)]] else []
  {
    var v := Cell(env, ColumnRef(j.base, j.baseColumn));
    UniquePartner(Rows(db, j.table), j.key, v);
    var partners := Partners(Rows(db, j.table), j.key, v);
    if partners != [] {
      assert partners[1..] == [];
      assert Bind(env, j.alias, []) == [];
    }
  }

  /** r is the one row a fact row joins to, binding each alias, or nothing. */
  ghost predicate JoinedOnce(db: Database, joins: seq<Join>, base: string, env: Env, fact: Record, r: seq<Env>) {
    if Keeps(db, joins, fact) then
      && |r| == 1 && base in r[0] && r[0][base] == fact && BindsAll(db, joins, fact, r[0])
      && (forall a :: a in env && (forall j :: j in joins ==> j.alias != a) ==> a in r[0] && r[0][a] == env[a])
    else r == []
  }

  lemma JoinOneMore(db: Database, j: Join, rest: seq<Join>, base: string, env: Env, fact: Record, r: seq<Env>)
    requires JoinsApart([j] + rest, base) && (j.kind.Left? || JoinTarget(db, j, fact).Some?)
    requires JoinedOnce(db, rest, base, env[j.alias := Bound(db, j, fact)], fact, r)
    ensures JoinedOnce(db, [j] + rest, base, env, fact, r)
  {
    hide JoinTarget, Bound;
    var joins := [j] + rest;
    forall x | x in rest ensures x.alias != j.alias {
      var n :| 0 <= n < |rest| && rest[n] == x;
      assert joins[n + 1] == x && joins[0] == j;
    }
    assert forall x :: x in joins <==> x == j || x in rest;
  }

  lemma NoJoins(db: Database, base: string, env: Env, fact: Record)
    requires base in env && env[base] == fact
    ensures JoinedOnce(db, [], base, env, fact, [env])
  {
  }

  lemma LostRow(db: Database, joins: seq<Join>, base: string, env: Env, fact: Record)
    requires !Keeps(db, joins, fact)
    ensures JoinedOnce(db, joins, base, env, fact, [])
  {
  }

  lemma {:induction false} RowJoinsOnce(db: Database, joins: seq<Join>, base: string, env: Env, fact: Record)
    requires JoinsApart(joins, base) && JoinsUnique(db, joins)
    requires base in env && env[base] == fact
    ensures JoinedOnce(db, joins, base, env, fact, JoinTables(db, joins, [env]))
  {
    hide UniqueKey, JoinTarget, JoinRow, JoinedOnce, Bound;
    if joins == [] {
      NoJoins(db, base, env, fact);
      return;
    }
    var j, rest := joins[0], joins[1..];
    assert joins == [j] + rest;
    assert JoinsApart(rest, base);
    OneJoin(db, j, env, fact);
    assert JoinTable(db, j, [env][1..]) == [];
    if j.kind.Left? || JoinTarget(db, j, fact).Some? {
      var next := env[j.alias := Bound(db, j, fact)];
      assert JoinTable(db, j, [env]) == [next];
      RowJoinsOnce(db, rest, base, next, fact);
      JoinOneMore(db, j, rest, base, env, fact, JoinTables(db, joins, [env]));
    } else {
      assert JoinTable(db, j, [env]) == [];
      NothingJoins(db, rest);
      assert !Keeps(db, joins, fact);
      LostRow(db, joins, base, env, fact);
    }
  }

  lemma {:induction false} NothingJoins(db: Database, joins: seq<Join>)
    ensures JoinTables(db, joins, []) == []
  {
    if joins != [] { NothingJoins(db, joins[1..]); }
  }

  lemma {:induction false} JoinTableAppend(db: Database, j: Join, a: seq<Env>, b: seq<Env>)
    ensures JoinTable(db, j, a + b) == JoinTable(db, j, a) + JoinTable(db, j, b)
  {
    hide JoinRow;
    if a == [] {
      assert a + b == b;
    } else {
      assert (a + b)[1..] == a[1..] + b;
      JoinTableAppend(db, j, a[1..], b);
    }
  }

  lemma {:induction false} JoinTablesAppend(db: Database, joins: seq<Join>, a: seq<Env>, b: seq<Env>)
    ensures JoinTables(db, joins, a + b) == JoinTables(db, joins, a) + JoinTables(db, joins, b)
  {
    hide JoinTable;
    if joins != [] {
      JoinTableAppend(db, joins[0], a, b);
      JoinTablesAppend(db, joins[1..], JoinTable(db, joins[0], a), JoinTable(db, joins[0], b));
    }
  }

  lemma {:induction false} WhereAppend(conditions: seq<Condition>, a: seq<Env>, b: seq<Env>, today: int)
    ensures Where(conditions, a + b, today) == Where(conditions, a, today) + Where(conditions, b, today)
  {
    hide Holds;
    if a == [] {
      assert a + b == b;
    } else {
      assert (a + b)[1..] == a[1..] + b;
      WhereAppend(conditions, a[1..], b, today);
    }
  }

  // ---- The plan's parts ----

  function ExpressionOf(d: Dimension, grain: Grain): ColumnRef {
    ColumnRef(if d.table == GRAIN_TABLE then grain.base else DimensionAlias(d.key), Render(d.column, grain))
  }

  function JoinOf(d: Dimension, grain: Grain): Option<Join> {
    if d.table == GRAIN_TABLE || d.joinPath.None? then None
    else
      var p := d.joinPath.value;
      Some(Join(p.kind, p.table, DimensionAlias(d.key), Render(p.key, grain), grain.base, Render(p.baseColumn, grain)))
  }

  /** Everything a question joins. */
  ghost predicate Uses(q: Question, d: Dimension) {
    || (exists k :: 0 <= k < |q.dimensions| && q.dimensions[k] == d)
    || (exists k :: 0 <= k < |q.filters| && q.filters[k].0 == d)
  }

  ghost predicate PlansDimensions(p: Plan, q: Question) {
    && |p.dimensions| == |q.dimensions|
    && forall k :: 0 <= k < |q.dimensions| ==>
        var d := q.dimensions[k];
        p.dimensions[k] == PlannedDimension(d, ExpressionOf(d, q.grain), JoinOf(d, q.grain))
  }

  ghost predicate PlansFilters(p: Plan, q: Question, floats: Floats) {
    && |p.filters| == |q.filters|
    && forall k :: 0 <= k < |q.filters| ==> PlansFilter(p.filters[k], q.filters[k].0, q.filters[k].1, q.grain, floats)
  }

  ghost predicate PlansFilter(p: PlannedFilter, d: Dimension, f: FilterValue, grain: Grain, floats: Floats) {
    && p.definition == d && p.join == JoinOf(d, grain)
    && FilterClause(floats, d, grain, OperatorOf(f), ValuesOf(f.values)) == Ok((p.clause, p.join))
  }

  /** The dimensions used come from one catalogue. */
  ghost predicate Catalogued(q: Question, dimensions: map<string, Dimension>) {
    forall d :: Uses(q, d) ==> d.key in dimensions && dimensions[d.key] == d && Joinable(d)
  }

  ghost predicate PlansFor(p: Plan, q: Question, floats: Floats) {
    && p.metric == q.metric && p.grain == q.grain && q.grain in {ORDER, TENDER}
    && PlansDimensions(p, q) && PlansFilters(p, q, floats)
    && PeriodClauses(q.period, ColumnRef(q.grain.base, q.grain.timeColumn)) == Ok(p.period)
    && p.joins == FirstOccurrences(DimensionJoins(p.dimensions) + FilterJoins(p.filters))
  }

  lemma AskedIsCatalogued(i: Interpretation, catalog: Catalog, floats: Floats)
    requires catalog.Built() && Governed(i, catalog, floats)
    ensures Catalogued(Asked(i, catalog, floats), catalog.dimensions)
  {
    var m, q := catalog.metrics[i.metric.value], Asked(i, catalog, floats);
    forall d | Uses(q, d) ensures d.key in catalog.dimensions && catalog.dimensions[d.key] == d && Joinable(d) {
      if k :| 0 <= k < |q.dimensions| && q.dimensions[k] == d {
        assert GovernedDimension(m, catalog, i.dimensions[k]);
      } else {
        var k :| 0 <= k < |q.filters| && q.filters[k].0 == d;
        assert GovernedFilter(m, catalog, floats, i.filters[k].0, i.filters[k].1);
      }
    }
  }

  lemma ResolvedDimension(d: Dimension, grain: Grain)
    requires Joinable(d)
    ensures ResolveDimension(d, grain) == Ok((ExpressionOf(d, grain), JoinOf(d, grain)))
  {
  }

  lemma PlannedFilterParts(catalog: Catalog, floats: Floats, m: Metric, grain: Grain, f: (string, FilterValue))
    requires GovernedFilter(m, catalog, floats, f.0, f.1)
    requires PlanFilter(catalog, floats, m, grain, f).Ok?
    ensures PlansFilter(PlanFilter(catalog, floats, m, grain, f).value, catalog.filters[f.0], f.1, grain, floats)
  {
    hide ReadValue, ReadValues, ValuesOf, AllowedOperators;
    ResolvedDimension(catalog.filters[f.0], grain);
  }

  lemma PlanParts(i: Interpretation, catalog: Catalog, floats: Floats, maxResultRows: nat)
    requires catalog.Built() && Governed(i, catalog, floats)
    ensures var r := PlanFor(i, catalog, floats, maxResultRows);
      && r.Ok? && PlansFor(r.value, Asked(i, catalog, floats), floats)
      && OrderOf(catalog.metrics[i.metric.value], i.dimensions, i.direction) == Ok(r.value.orderBy)
  {
    hide PlanDimensions, PlanFilters, PlanFilter, DimensionJoins, FilterJoins, FirstOccurrences;
    hide PeriodClauses, OrderOf, NormalizeLimit, PlansFilter, GovernedFilter, ResolveDimension;
    PlannedIffGoverned(i, catalog, floats, maxResultRows);
    var m := catalog.metrics[i.metric.value];
    var grain := if m.grain == "order" then ORDER else TENDER;
    DimensionsSucceed(catalog, m, grain, i.dimensions);
    FiltersSucceed(catalog, floats, m, grain, i.filters);
    AskedIsCatalogued(i, catalog, floats);
    var p, q := PlanFor(i, catalog, floats, maxResultRows).value, Asked(i, catalog, floats);
    forall k | 0 <= k < |q.dimensions|
      ensures p.dimensions[k]
        == PlannedDimension(q.dimensions[k], ExpressionOf(q.dimensions[k], grain), JoinOf(q.dimensions[k], grain))
    {
      assert GovernedDimension(m, catalog, i.dimensions[k]);
      ResolvedDimension(q.dimensions[k], grain);
    }
    forall k | 0 <= k < |q.filters|
      ensures PlansFilter(p.filters[k], q.filters[k].0, q.filters[k].1, grain, floats)
    {
      assert i.filters[k] in i.filters;
      PlannedFilterParts(catalog, floats, m, grain, i.filters[k]);
    }
  }

  lemma DistinctAliases(d: Dimension, e: Dimension)
    requires DimensionAlias(d.key) == DimensionAlias(e.key)
    ensures d.key == e.key
  {
    assert d.key == DimensionAlias(d.key)[4..];
    assert e.key == DimensionAlias(e.key)[4..];
  }

  lemma AliasIsNotBase(d: Dimension, grain: Grain)
    requires grain in {ORDER, TENDER}
    ensures DimensionAlias(d.key) != grain.base
  {
    assert |DimensionAlias(d.key)| >= 4;
  }

  lemma UsedIsJoined(p: Plan, q: Question, floats: Floats, d: Dimension)
    requires PlansFor(p, q, floats) && Uses(q, d) && JoinOf(d, q.grain).Some?
    ensures JoinOf(d, q.grain).value in p.joins
  {
    hide PeriodClauses, JoinOf, ExpressionOf, FilterClause;
    var j := JoinOf(d, q.grain);
    if k :| 0 <= k < |q.dimensions| && q.dimensions[k] == d {
      assert p.dimensions[k].join == j;
      assert j.value in DimensionJoins(p.dimensions);
    } else {
      var k :| 0 <= k < |q.filters| && q.filters[k].0 == d;
      assert p.filters[k].join == j;
      assert j.value in FilterJoins(p.filters);
    }
  }

  lemma JoinedIsUsed(p: Plan, q: Question, floats: Floats, j: Join) returns (d: Dimension)
    requires PlansFor(p, q, floats) && j in p.joins
    ensures Uses(q, d) && JoinOf(d, q.grain) == Some(j)
  {
    hide PeriodClauses, JoinOf, ExpressionOf, FilterClause;
    if j in DimensionJoins(p.dimensions) {
      var k :| 0 <= k < |p.dimensions| && p.dimensions[k].join == Some(j);
      d := q.dimensions[k];
    } else {
      assert j in FilterJoins(p.filters);
      var k :| 0 <= k < |p.filters| && p.filters[k].join == Some(j);
      d := q.filters[k].0;
    }
  }

  lemma PlanJoinsApart(p: Plan, q: Question, floats: Floats, dimensions: map<string, Dimension>)
    requires PlansFor(p, q, floats) && Catalogued(q, dimensions)
    ensures JoinsApart(p.joins, p.grain.base)
  {
    hide DimensionAlias, FilterClause, PeriodClauses, DimensionJoins, FilterJoins, PlansDimensions, PlansFilters;
    forall j | j in p.joins ensures j.base == p.grain.base && j.alias != p.grain.base {
      var d := JoinedIsUsed(p, q, floats, j);
      AliasIsNotBase(d, q.grain);
    }
    forall m, n | 0 <= m < n < |p.joins| ensures p.joins[m].alias != p.joins[n].alias {
      var d := JoinedIsUsed(p, q, floats, p.joins[m]);
      var e := JoinedIsUsed(p, q, floats, p.joins[n]);
      if p.joins[m].alias == p.joins[n].alias { DistinctAliases(d, e); }
    }
  }

  // ---- One fact row ----

  /** The joined row of a fact row. */
  ghost predicate StandsFor(env: Env, fact: Record, p: Plan, db: Database) {
    p.grain.base in env && env[p.grain.base] == fact && BindsAll(db, p.joins, fact, env)
  }

  lemma CellMeans(p: Plan, q: Question, floats: Floats, dimensions: map<string, Dimension>, db: Database,
    env: Env, fact: Record, d: Dimension)
    requires PlansFor(p, q, floats) && Catalogued(q, dimensions) && Uses(q, d)
    requires StandsFor(env, fact, p, db)
    ensures Cell(env, ExpressionOf(d, q.grain)) == DimensionValue(db, q.grain, d, fact)
  {
    hide PlansDimensions, PlansFilters, PeriodClauses, DimensionJoins, FilterJoins, Uses, DimensionAlias, Render;
    if d.table != GRAIN_TABLE {
      UsedIsJoined(p, q, floats, d);
    }
  }

  lemma KeepsMeans(p: Plan, q: Question, floats: Floats, dimensions: map<string, Dimension>, db: Database, fact: Record)
    requires PlansFor(p, q, floats) && Catalogued(q, dimensions)
    ensures Keeps(db, p.joins, fact) <==> forall d :: Uses(q, d) ==> Linked(db, q.grain, d, fact)
  {
    hide PlansDimensions, PlansFilters, PeriodClauses, DimensionJoins, FilterJoins, Uses, DimensionAlias, Render;
    if Keeps(db, p.joins, fact) {
      forall d | Uses(q, d) ensures Linked(db, q.grain, d, fact) {
        if JoinOf(d, q.grain).Some? { UsedIsJoined(p, q, floats, d); }
      }
    }
    if forall d :: Uses(q, d) ==> Linked(db, q.grain, d, fact) {
      forall j | j in p.joins ensures j.kind.Left? || JoinTarget(db, j, fact).Some? {
        var d := JoinedIsUsed(p, q, floats, j);
        assert Linked(db, q.grain, d, fact);
      }
    }
  }

  lemma ListMeans(p: PlannedFilter, d: Dimension, f: FilterValue, grain: Grain, floats: Floats, env: Env, today: int)
    requires Joinable(d) && PlansFilter(p, d, f, grain, floats) && OperatorOf(f) == "in"
    ensures Holds(p.clause, env, today) <==> Matches(floats, d, f, Cell(env, ExpressionOf(d, grain)))
  {
    hide ReadValue, ReadValues, ValuesOf, LiteralValue, AtMost, Cell, NextFilled, Encloses;
    ResolvedDimension(d, grain);
    var values, v := ValuesOf(f.values), Cell(env, ExpressionOf(d, grain));
    ReadValuesSucceeds(floats, d, values);
    var ls := ReadValues(floats, d, values).value;
    assert p.clause == OneOf(ExpressionOf(d, grain), ls);
    if i :| 0 <= i < |ls| && v == LiteralValue(ls[i]) {
      assert SameAs(floats, d, values[i], v) && values[i] in values;
      var k :| 0 <= k < |f.values| && f.values[k] == Some(values[i]);
      assert Filled(f.values[k]);
    }
    if k :| 0 <= k < |f.values| && Filled(f.values[k]) && SameAs(floats, d, f.values[k].value, v) {
      assert f.values[k] == Some(f.values[k].value) && f.values[k].value in values;
      var i :| 0 <= i < |values| && values[i] == f.values[k].value;
      assert v == LiteralValue(ls[i]);
    }
  }

  lemma FilterMeans(p: PlannedFilter, d: Dimension, f: FilterValue, grain: Grain, floats: Floats, env: Env, today: int)
    requires Joinable(d) && PlansFilter(p, d, f, grain, floats)
    ensures Holds(p.clause, env, today) <==> Matches(floats, d, f, Cell(env, ExpressionOf(d, grain)))
  {
    hide ReadValue, ReadValues, ValuesOf, LiteralValue, AtMost, Cell;
    if OperatorOf(f) == "in" {
      ListMeans(p, d, f, grain, floats, env, today);
    } else {
      ResolvedDimension(d, grain);
      ValuesInOrder(f.values);
    }
  }

  lemma DayBounds(micros: int, day: int)
    ensures micros / Calendar.MICROS_PER_DAY == day <==> StartOfDay(day) <= micros < StartOfDay(day + 1)
  {
  }

  lemma PeriodMeans(period: Period, time: ColumnRef, env: Env, today: int)
    requires PeriodClauses(period, time).Ok?
    ensures (forall c :: c in PeriodClauses(period, time).value ==> Holds(c, env, today))
      <==> InPeriod(period, today, Cell(env, time))
  {
    hide StartOfDay, Cell;
    var cs, v := PeriodClauses(period, time).value, Cell(env, time);
    if |cs| >= 1 { assert cs[0] in cs; }
    if |cs| == 2 { assert cs[1] in cs; }
    if period.ExactDate? && v.Moment? && period.date.Some? { DayBounds(v.micros, period.date.value); }
  }

  lemma FactCell(env: Env, fact: Record, p: Plan, db: Database, column: string)
    requires StandsFor(env, fact, p, db)
    ensures Cell(env, ColumnRef(p.grain.base, column)) == Field(fact, column)
  {
  }

  lemma RowMeans(p: Plan, q: Question, floats: Floats, dimensions: map<string, Dimension>, db: Database, today: int,
    env: Env, fact: Record)
    requires PlansFor(p, q, floats) && Catalogued(q, dimensions)
    requires StandsFor(env, fact, p, db)
    requires Keeps(db, p.joins, fact)
    ensures (forall c :: c in Compile(p).where ==> Holds(c, env, today)) <==> Qualifies(q, floats, db, today, fact)
  {
    hide PlansDimensions, PlansFilter, PeriodClauses, DimensionJoins, FilterJoins, Holds, Matches, Linked, InPeriod;
    hide StandsFor, Keeps, DimensionValue, ExpressionOf;
    KeepsMeans(p, q, floats, dimensions, db, fact);
    var time := ColumnRef(q.grain.base, q.grain.timeColumn);
    PeriodMeans(q.period, time, env, today);
    FactCell(env, fact, p, db, q.grain.timeColumn);
    forall d | d in q.dimensions ensures Linked(db, q.grain, d, fact) {
      assert Uses(q, d);
    }
    forall k | 0 <= k < |q.filters|
      ensures Linked(db, q.grain, q.filters[k].0, fact)
      ensures Holds(p.filters[k].clause, env, today)
        <==> Matches(floats, q.filters[k].0, q.filters[k].1, DimensionValue(db, q.grain, q.filters[k].0, fact))
    {
      assert Uses(q, q.filters[k].0);
      CellMeans(p, q, floats, dimensions, db, env, fact, q.filters[k].0);
      FilterMeans(p.filters[k], q.filters[k].0, q.filters[k].1, q.grain, floats, env, today);
    }
    var clauses := Clauses(p.filters);
    forall c ensures c in Compile(p).where <==> c in clauses || c in p.period { }
    assert forall k :: 0 <= k < |q.filters| ==> clauses[k] == p.filters[k].clause;
  }

  // ---- All fact rows ----

  ghost predicate StandFor(envs: seq<Env>, facts: seq<Record>, p: Plan, db: Database) {
    |envs| == |facts| && forall n :: 0 <= n < |envs| ==> StandsFor(envs[n], facts[n], p, db)
  }

  /** What a plan must satisfy for its joins to work row by row. */
  ghost predicate Sound(p: Plan, q: Question, floats: Floats, dimensions: map<string, Dimension>, db: Database) {
    PlansFor(p, q, floats) && Catalogued(q, dimensions) && JoinsUnique(db, p.joins)
  }

  lemma OneFact(p: Plan, q: Question, floats: Floats, dimensions: map<string, Dimension>, db: Database, today: int,
    fact: Record)
    requires Sound(p, q, floats, dimensions, db)
    ensures var r := Where(Compile(p).where, JoinTables(db, p.joins, [map[p.grain.base := fact]]), today);
      StandFor(r, if Qualifies(q, floats, db, today, fact) then [fact] else [], p, db)
  {
    hide PlansFor, Catalogued, JoinsUnique, BindsAll, Compile, Holds, JoinTables, Keeps;
    PlanJoinsApart(p, q, floats, dimensions);
    var env: Env := map[p.grain.base := fact];
    RowJoinsOnce(db, p.joins, p.grain.base, env, fact);
    var r, where := JoinTables(db, p.joins, [env]), Compile(p).where;
    if Keeps(db, p.joins, fact) {
      assert StandsFor(r[0], fact, p, db);
      RowMeans(p, q, floats, dimensions, db, today, r[0], fact);
      assert Where(where, r[1..], today) == [];
    } else {
      NotKept(p, q, floats, dimensions, db, today, fact);
    }
  }

  lemma NotKept(p: Plan, q: Question, floats: Floats, dimensions: map<string, Dimension>, db: Database, today: int,
    fact: Record)
    requires PlansFor(p, q, floats) && Catalogued(q, dimensions) && !Keeps(db, p.joins, fact)
    ensures !Qualifies(q, floats, db, today, fact)
  {
    hide PlansFor, Catalogued, Keeps, Linked, Matches, InPeriod;
    KeepsMeans(p, q, floats, dimensions, db, fact);
    var d :| Uses(q, d) && !Linked(db, q.grain, d, fact);
    if k :| 0 <= k < |q.dimensions| && q.dimensions[k] == d {
      assert d in q.dimensions;
    } else {
      var k :| 0 <= k < |q.filters| && q.filters[k].0 == d;
      assert q.filters[k] in q.filters;
    }
  }

  lemma StandForBoth(a: seq<Env>, facts: seq<Record>, b: seq<Env>, more: seq<Record>, p: Plan, db: Database)
    requires StandFor(a, facts, p, db) && StandFor(b, more, p, db)
    ensures StandFor(a + b, facts + more, p, db)
  {
    hide StandsFor;
  }

  lemma {:induction false} AllFacts(
    p: Plan, q: Question, floats: Floats, dimensions: map<string, Dimension>, db: Database, today: int,
    rows: seq<Record>)
    requires Sound(p, q, floats, dimensions, db)
    ensures StandFor(Where(Compile(p).where, JoinTables(db, p.joins, From(rows, p.grain.base)), today),
                     Facts(q, floats, db, today, rows), p, db)
  {
    hide Sound, StandsFor, StandFor, Compile, Holds, Qualifies, JoinTables, Where;
    var joins, base, where := p.joins, p.grain.base, Compile(p).where;
    if rows == [] {
      NothingJoins(db, joins);
      NothingKept(where, today, p, db);
    } else {
      var first: seq<Env>, rest := [map[base := rows[0]]], From(rows[1..], base);
      OneFact(p, q, floats, dimensions, db, today, rows[0]);
      AllFacts(p, q, floats, dimensions, db, today, rows[1..]);
      JoinTablesAppend(db, joins, first, rest);
      var kept, others := JoinTables(db, joins, first), JoinTables(db, joins, rest);
      WhereAppend(where, kept, others, today);
      StandForBoth(Where(where, kept, today), if Qualifies(q, floats, db, today, rows[0]) then [rows[0]] else [],
        Where(where, others, today), Facts(q, floats, db, today, rows[1..]), p, db);
    }
  }

  lemma NothingKept(where: seq<Condition>, today: int, p: Plan, db: Database)
    ensures StandFor(Where(where, [], today), [], p, db)
  {
  }

  // ---- Groups ----

  function OfKey(q: Question, db: Database, facts: seq<Record>, key: seq<Value>): seq<Record> {
    if facts == [] then []
    else (if KeyOf(q, db, facts[0]) == key then [facts[0]] else []) + OfKey(q, db, facts[1..], key)
  }

  function FactKeys(q: Question, db: Database, facts: seq<Record>): seq<seq<Value>> {
    seq(|facts|, n requires 0 <= n < |facts| => KeyOf(q, db, facts[n]))
  }

  lemma {:induction false} OfKeyAppend(q: Question, db: Database, a: seq<Record>, b: seq<Record>, key: seq<Value>)
    ensures OfKey(q, db, a + b, key) == OfKey(q, db, a, key) + OfKey(q, db, b, key)
  {
    hide KeyOf;
    if a == [] {
      assert a + b == b;
    } else {
      assert (a + b)[1..] == a[1..] + b;
      OfKeyAppend(q, db, a[1..], b, key);
    }
  }

  lemma {:induction false} NoneOfKey(q: Question, db: Database, facts: seq<Record>, key: seq<Value>)
    requires key !in FactKeys(q, db, facts)
    ensures OfKey(q, db, facts, key) == []
  {
    hide KeyOf;
    if facts != [] {
      assert FactKeys(q, db, facts)[0] == KeyOf(q, db, facts[0]);
      assert FactKeys(q, db, facts[1..]) == FactKeys(q, db, facts)[1..];
      NoneOfKey(q, db, facts[1..], key);
    }
  }

  /** The groups of these keys, in this order. */
  function GroupsBy(q: Question, db: Database, keys: seq<seq<Value>>, facts: seq<Record>): (r: seq<Group>)
    ensures |r| == |keys|
    ensures forall n :: 0 <= n < |keys| ==> r[n] == Group(keys[n], OfKey(q, db, facts, keys[n]))
  {
    if keys == [] then []
    else [Group(keys[0], OfKey(q, db, facts, keys[0]))] + GroupsBy(q, db, keys[1..], facts)
  }

  lemma OfKeySnoc(q: Question, db: Database, facts: seq<Record>, fact: Record, key: seq<Value>)
    ensures var before := OfKey(q, db, facts, key);
      OfKey(q, db, facts + [fact], key) == if KeyOf(q, db, fact) == key then before + [fact] else before
  {
    OfKeyAppend(q, db, facts, [fact], key);
    assert OfKey(q, db, [fact][1..], key) == [];
    assert OfKey(q, db, facts, key) + [] == OfKey(q, db, facts, key);
  }

  lemma {:induction false} OtherGroupsStay(
    q: Question, db: Database, keys: seq<seq<Value>>, facts: seq<Record>, fact: Record)
    requires KeyOf(q, db, fact) !in keys
    ensures GroupsBy(q, db, keys, facts + [fact]) == GroupsBy(q, db, keys, facts)
  {
    hide OfKey, KeyOf;
    forall n | 0 <= n < |keys| ensures OfKey(q, db, facts + [fact], keys[n]) == OfKey(q, db, facts, keys[n]) {
      OfKeySnoc(q, db, facts, fact, keys[n]);
    }
  }

  lemma {:induction false} AddRowEffect(q: Question, db: Database, keys: seq<seq<Value>>, facts: seq<Record>,
    fact: Record)
    requires forall i, j :: 0 <= i < j < |keys| ==> keys[i] != keys[j]
    requires KeyOf(q, db, fact) !in keys ==> OfKey(q, db, facts, KeyOf(q, db, fact)) == []
    ensures var key := KeyOf(q, db, fact);
      AddRow(GroupsBy(q, db, keys, facts), key, fact)
        == GroupsBy(q, db, if key in keys then keys else keys + [key], facts + [fact])
  {
    hide OfKey, KeyOf, GroupsBy, AddRow;
    var key := KeyOf(q, db, fact);
    if keys == [] {
      OfKeySnoc(q, db, facts, fact, key);
      assert keys + [key] == [key] + [];
      GroupsByCons(q, db, key, [], facts + [fact]);
      assert GroupsBy(q, db, [], facts) == [] && GroupsBy(q, db, [], facts + [fact]) == [];
      assert OfKey(q, db, facts + [fact], key) == [] + [fact] == [fact];
      assert [Group(key, [fact])] + [] == [Group(key, [fact])];
      AddFirst(key, fact);
    } else {
      var first, rest := keys[0], keys[1..];
      assert keys == [first] + rest;
      OfKeySnoc(q, db, facts, fact, first);
      GroupsByCons(q, db, first, rest, facts);
      AddRowCons(Group(first, OfKey(q, db, facts, first)), GroupsBy(q, db, rest, facts), key, fact);
      if first == key {
        assert key !in rest;
        OtherGroupsStay(q, db, rest, facts, fact);
        GroupsByCons(q, db, first, rest, facts + [fact]);
      } else {
        AddRowEffect(q, db, rest, facts, fact);
        var after := if key in rest then rest else rest + [key];
        assert (if key in keys then keys else keys + [key]) == [first] + after;
        GroupsByCons(q, db, first, after, facts + [fact]);
      }
    }
  }

  lemma AddFirst(key: seq<Value>, fact: Record)
    ensures AddRow([], key, fact) == [Group(key, [fact])]
  {
  }

  lemma AddRowCons(group: Group, groups: seq<Group>, key: seq<Value>, fact: Record)
    ensures AddRow([group] + groups, key, fact) ==
      if group.key == key then [Group(key, group.rows + [fact])] + groups else [group] + AddRow(groups, key, fact)
  {
    assert ([group] + groups)[1..] == groups;
  }

  function Members(groups: seq<Group>): multiset<Record> {
    if groups == [] then multiset{} else multiset(groups[0].rows) + Members(groups[1..])
  }

  lemma {:induction false} AddRowAddsOne(groups: seq<Group>, key: seq<Value>, fact: Record)
    ensures Members(AddRow(groups, key, fact)) == Members(groups) + multiset{fact}
  {
    if groups != [] && groups[0].key != key { AddRowAddsOne(groups[1..], key, fact); }
  }

  /** Grouping neither drops nor repeats a fact row. */
  lemma {:induction false} EachFactInOneGroup(q: Question, db: Database, facts: seq<Record>)
    ensures Members(Grouped(q, db, facts)) == multiset(facts)
  {
    if facts != [] {
      var init, last := facts[..|facts| - 1], facts[|facts| - 1];
      EachFactInOneGroup(q, db, init);
      AddRowAddsOne(Grouped(q, db, init), KeyOf(q, db, last), last);
      assert facts == init + [last];
    }
  }

  lemma GroupsByCons(q: Question, db: Database, key: seq<Value>, rest: seq<seq<Value>>, facts: seq<Record>)
    ensures GroupsBy(q, db, [key] + rest, facts)
      == [Group(key, OfKey(q, db, facts, key))] + GroupsBy(q, db, rest, facts)
  {
  }

  /** The fold makes one group for each key, in the order keys first appear. */
  lemma {:induction false} GroupsAreByKey(q: Question, db: Database, facts: seq<Record>)
    ensures Grouped(q, db, facts) == GroupsBy(q, db, FirstOccurrences(FactKeys(q, db, facts)), facts)
  {
    hide KeyOf, AddRow, GroupsBy, OfKey;
    if facts == [] {
      assert GroupsBy(q, db, [], facts) == [];
      return;
    }
    var init, last := facts[..|facts| - 1], facts[|facts| - 1];
    var key, keys := KeyOf(q, db, last), FirstOccurrences(FactKeys(q, db, init));
    GroupsAreByKey(q, db, init);
    assert facts == init + [last];
    assert FactKeys(q, db, facts) == FactKeys(q, db, init) + [key];
    assert FactKeys(q, db, facts)[..|init|] == FactKeys(q, db, init);
    if key !in keys { NoneOfKey(q, db, init, key); }
    AddRowEffect(q, db, keys, init, last);
  }

  // ---- Figures over corresponding rows ----

  lemma {:induction false} ReferencesRendered(parts: seq<Part<ColumnTemplate>>, grain: Grain)
    ensures var r, cols := References(RenderParts(parts, grain)), References(parts);
      |r| == |cols| && forall k :: 0 <= k < |cols| ==> r[k] == ColumnRef(grain.base, Render(cols[k], grain))
  {
    hide Render;
    if parts != [] {
      assert RenderParts(parts, grain)[1..] == RenderParts(parts[1..], grain);
      ReferencesRendered(parts[1..], grain);
    }
  }

  /** A metric sees the same cells in the joined rows as in the fact rows they stand for. */
  lemma AggregateAlike(e: Expression<ColumnTemplate>, envs: seq<Env>, facts: seq<Record>, p: Plan, db: Database)
    requires StandFor(envs, facts, p, db)
    ensures Aggregated(Expression(RenderParts(e.parts, p.grain), e.compute), envs, Cell)
         == Aggregated(e, facts, FactField(p.grain))
  {
    hide BindsAll, Render, References;
    ReferencesRendered(e.parts, p.grain);
    var rendered, cols := References(RenderParts(e.parts, p.grain)), References(e.parts);
    forall n | 0 <= n < |envs|
      ensures CellsRead(rendered, envs, Cell)[n] == CellsRead(cols, facts, FactField(p.grain))[n]
    {
      assert StandsFor(envs[n], facts[n], p, db);
      forall k | 0 <= k < |cols| ensures Cell(envs[n], rendered[k]) == FactField(p.grain)(facts[n], cols[k]) {
        assert rendered[k] == ColumnRef(p.grain.base, Render(cols[k], p.grain));
      }
      var a, b := CellsRead(rendered, envs, Cell)[n], CellsRead(cols, facts, FactField(p.grain))[n];
      assert |a| == |b| && forall k :: 0 <= k < |a| ==> a[k] == b[k];
    }
    assert CellsRead(rendered, envs, Cell) == CellsRead(cols, facts, FactField(p.grain));
  }

  lemma KeysAlike(p: Plan, q: Question, floats: Floats, dimensions: map<string, Dimension>, db: Database,
    env: Env, fact: Record)
    requires Sound(p, q, floats, dimensions, db) && StandsFor(env, fact, p, db)
    ensures Cells(env, Compile(p).groupBy) == KeyOf(q, db, fact)
    ensures SelectColumns(Compile(p)) == Compile(p).groupBy
  {
    hide PlansFilters, PeriodClauses, DimensionJoins, FilterJoins, JoinsUnique, ExpressionOf, JoinOf;
    hide DimensionValue, StandsFor;
    var cols := Compile(p).groupBy;
    forall k | 0 <= k < |q.dimensions|
      ensures Cell(env, cols[k]) == DimensionValue(db, q.grain, q.dimensions[k], fact)
    {
      assert Uses(q, q.dimensions[k]);
      CellMeans(p, q, floats, dimensions, db, env, fact, q.dimensions[k]);
      assert cols[k] == ExpressionOf(q.dimensions[k], q.grain);
    }
    assert SelectColumns(Compile(p)) == cols;
  }

  lemma {:induction false} KeyListsAlike(p: Plan, q: Question, floats: Floats, dimensions: map<string, Dimension>,
    db: Database, envs: seq<Env>, facts: seq<Record>)
    requires Sound(p, q, floats, dimensions, db) && StandFor(envs, facts, p, db)
    ensures Keys(envs, Compile(p).groupBy) == FactKeys(q, db, facts)
  {
    hide Sound, StandsFor, Compile, KeyOf, Cells;
    forall n | 0 <= n < |envs| ensures Cells(envs[n], Compile(p).groupBy) == KeyOf(q, db, facts[n]) {
      assert StandsFor(envs[n], facts[n], p, db);
      KeysAlike(p, q, floats, dimensions, db, envs[n], facts[n]);
    }
  }

  lemma {:induction false} GroupsAlike(
    p: Plan, q: Question, floats: Floats, dimensions: map<string, Dimension>, db: Database,
    envs: seq<Env>, facts: seq<Record>, key: seq<Value>)
    requires Sound(p, q, floats, dimensions, db) && StandFor(envs, facts, p, db)
    ensures StandFor(GroupOf(envs, Compile(p).groupBy, key), OfKey(q, db, facts, key), p, db)
  {
    hide Sound, StandsFor, Compile, KeyOf, Cells;
    if envs != [] {
      assert StandsFor(envs[0], facts[0], p, db);
      KeysAlike(p, q, floats, dimensions, db, envs[0], facts[0]);
      var env, fact := envs[0], facts[0];
      assert StandFor(envs[1..], facts[1..], p, db);
      GroupsAlike(p, q, floats, dimensions, db, envs[1..], facts[1..], key);
      if KeyOf(q, db, fact) == key {
        StandForBoth([env], [fact], GroupOf(envs[1..], Compile(p).groupBy, key), OfKey(q, db, facts[1..], key), p, db);
      }
    }
  }

  lemma {:induction false} GroupHasKey(envs: seq<Env>, cols: seq<ColumnRef>, key: seq<Value>)
    requires key in Keys(envs, cols)
    ensures var group := GroupOf(envs, cols, key); group != [] && Cells(group[0], cols) == key
  {
    hide Cells;
    if Cells(envs[0], cols) != key {
      assert Keys(envs, cols) == [Cells(envs[0], cols)] + Keys(envs[1..], cols);
      GroupHasKey(envs[1..], cols, key);
    }
  }

  lemma OneGroup(p: Plan, q: Question, floats: Floats, dimensions: map<string, Dimension>, db: Database,
    envs: seq<Env>, facts: seq<Record>, key: seq<Value>)
    requires Sound(p, q, floats, dimensions, db) && StandFor(envs, facts, p, db)
    requires key in FactKeys(q, db, facts)
    ensures GroupOutput(Compile(p), GroupOf(envs, Compile(p).groupBy, key))
         == Output(key, MetricValue(q, OfKey(q, db, facts, key)))
  {
    hide PlansDimensions, PlansFilters, PeriodClauses, JoinsUnique, StandsFor, Aggregated, Cells, KeyOf, Catalogued;
    GroupsAlike(p, q, floats, dimensions, db, envs, facts, key);
    KeyListsAlike(p, q, floats, dimensions, db, envs, facts);
    GroupHasKey(envs, Compile(p).groupBy, key);
    var n :| 0 <= n < |facts| && KeyOf(q, db, facts[n]) == key;
    KeysAlike(p, q, floats, dimensions, db, envs[n], facts[n]);
    AggregateAlike(q.metric.expression, GroupOf(envs, Compile(p).groupBy, key), OfKey(q, db, facts, key), p, db);
  }

  lemma SoleOutput(compiled: Query, envs: seq<Env>)
    requires compiled.select == []
    ensures GroupOutput(compiled, envs) == Output([], Aggregated(compiled.metric, envs, Cell))
  {
    hide Aggregated;
  }

  /** The compiled query computes exactly the groups and figures of the question. */
  lemma OutputsAreResults(p: Plan, q: Question, floats: Floats, dimensions: map<string, Dimension>, db: Database,
    today: int)
    requires Sound(p, q, floats, dimensions, db)
    ensures Outputs(Compile(p), db, today) == Results(q, floats, db, today)
  {
    hide StandsFor, Facts, Where, JoinTables, From, Aggregated, GroupOf, OfKey, KeyOf, Cells, FirstOccurrences;
    hide Catalogued, PlansFilters, PeriodClauses, DimensionJoins, FilterJoins, JoinsUnique, Grouped, GroupOutput;
    var rows := Rows(db, p.grain.source);
    AllFacts(p, q, floats, dimensions, db, today, rows);
    var envs, facts := Selected(Compile(p), db, today), Facts(q, floats, db, today, rows);
    assert StandFor(envs, facts, p, db);
    var cols := Compile(p).groupBy;
    if q.dimensions == [] {
      assert cols == [];
      AggregateAlike(q.metric.expression, envs, facts, p, db);
      assert SelectColumns(Compile(p)) == [];
      SoleOutput(Compile(p), envs);
    } else {
      assert |cols| == |q.dimensions|;
      KeyListsAlike(p, q, floats, dimensions, db, envs, facts);
      GroupsAreByKey(q, db, facts);
      var groups, keys := Grouped(q, db, facts), FirstOccurrences(Keys(envs, cols));
      forall n | 0 <= n < |keys|
        ensures GroupOutput(Compile(p), GroupOf(envs, cols, keys[n]))
          == Output(groups[n].key, MetricValue(q, groups[n].rows))
      {
        assert keys[n] == groups[n].key;
        assert keys[n] in keys;
        OneGroup(p, q, floats, dimensions, db, envs, facts, keys[n]);
      }
    }
  }

  // ---- The answer ----

  /** Where a request's answer is sorted: by its first "day", else by the figure. */
  function SortColumn(dimensions: seq<string>): nat {
    if dimensions == [] || dimensions[0] == "day" then 0 else SortColumn(dimensions[1..]) + 1
  }

  /** Days go forward; figures as asked, downward unless told otherwise. */
  predicate Ascending(i: Interpretation) {
    "day" in i.dimensions || (i.direction.Some? && AsciiText.Lower(i.direction.value) == "asc")
  }

  function RowsWanted(i: Interpretation, maxResultRows: nat): int {
    var asked := if i.limit.Some? && i.limit.value != 0 then i.limit.value else 20;
    if asked < maxResultRows then asked else maxResultRows
  }

  ghost predicate DirectAnswer(i: Interpretation, catalog: Catalog, floats: Floats, maxResultRows: nat, db: Database,
    today: int, answer: seq<Output>)
    requires catalog.Built() && Governed(i, catalog, floats)
  {
    TopOf(Results(Asked(i, catalog, floats), floats, db, today), SortColumn(i.dimensions), Ascending(i),
      RowsWanted(i, maxResultRows), answer)
  }

  lemma {:induction false} OrderIndexOfNames(select: seq<(ColumnRef, string)>, names: seq<string>, name: string)
    requires |select| == |names| && forall k :: 0 <= k < |names| ==> select[k].1 == names[k]
    requires name == DAY || (name !in names && DAY !in names)
    ensures OrderIndex(select, name) == SortColumn(names)
  {
    if names != [] { OrderIndexOfNames(select[1..], names[1..], name); }
  }

  lemma KeyOfDimension(i: Interpretation, catalog: Catalog, floats: Floats, k: nat)
    requires catalog.Built() && Governed(i, catalog, floats) && k < |i.dimensions|
    ensures Asked(i, catalog, floats).dimensions[k].key == i.dimensions[k]
  {
    assert GovernedDimension(catalog.metrics[i.metric.value], catalog, i.dimensions[k]);
  }

  lemma PlanOrder(i: Interpretation, catalog: Catalog, floats: Floats, maxResultRows: nat)
    requires catalog.Built() && Governed(i, catalog, floats)
    requires i.metric.value !in i.dimensions
    ensures var r := PlanFor(i, catalog, floats, maxResultRows);
      && r.Ok? && r.value.limit == RowsWanted(i, maxResultRows)
      && r.value.orderBy.ascending == Ascending(i)
      && OrderIndex(Compile(r.value).select, r.value.orderBy.output) == SortColumn(i.dimensions)
  {
    hide PlansFilters, PeriodClauses, DimensionJoins, FilterJoins, PlanDimensions, PlanFilters, OrderIndex, SortColumn;
    hide ExpressionOf, JoinOf, FirstOccurrences, GovernedDimension, GovernedFilter;
    PlanParts(i, catalog, floats, maxResultRows);
    LowerDesc();
    var p := PlanFor(i, catalog, floats, maxResultRows).value;
    var select := Compile(p).select;
    forall k | 0 <= k < |i.dimensions| ensures select[k].1 == i.dimensions[k] {
      KeyOfDimension(i, catalog, floats, k);
      assert p.dimensions[k].definition == Asked(i, catalog, floats).dimensions[k];
    }
    OrderIndexOfNames(select, i.dimensions, p.orderBy.output);
  }

  /** Before sorting and cutting off, the compiled request yields the groups and figures asked. */
  lemma CompiledYieldsResults(i: Interpretation, catalog: Catalog, floats: Floats, maxResultRows: nat, db: Database,
    today: int)
    requires catalog.Built() && Governed(i, catalog, floats)
    requires DimensionKeysUnique(catalog, GrainOf(catalog.metrics[i.metric.value].grain).value, db)
    ensures PlanFor(i, catalog, floats, maxResultRows).Ok?
    ensures Outputs(Compile(PlanFor(i, catalog, floats, maxResultRows).value), db, today)
         == Results(Asked(i, catalog, floats), floats, db, today)
  {
    hide PlanFor, PlansDimensions, PlansFilters, PeriodClauses, DimensionJoins, FilterJoins, Outputs, Results;
    hide GovernedDimension, GovernedFilter, FirstOccurrences, UniqueKey;
    PlanParts(i, catalog, floats, maxResultRows);
    AskedIsCatalogued(i, catalog, floats);
    var p, q := PlanFor(i, catalog, floats, maxResultRows).value, Asked(i, catalog, floats);
    forall j | j in p.joins ensures UniqueKey(Rows(db, j.table), j.key) {
      var d := JoinedIsUsed(p, q, floats, j);
      assert catalog.dimensions[d.key] == d;
    }
    OutputsAreResults(p, q, floats, catalog.dimensions, db, today);
  }

  /** Whatever the compiled query may answer is a right answer to the request, and the other
      way round: the groups and figures of the fact rows asked about, each fact row counted once,
      sorted and cut off. A metric named like a requested dimension is excluded, its ORDER BY
      being ambiguous. */
  lemma CompiledMeansDirect(i: Interpretation, catalog: Catalog, floats: Floats, maxResultRows: nat, db: Database,
    today: int, answer: seq<Output>)
    requires catalog.Built() && Governed(i, catalog, floats)
    requires i.metric.value !in i.dimensions
    requires DimensionKeysUnique(catalog, GrainOf(catalog.metrics[i.metric.value].grain).value, db)
    ensures PlanFor(i, catalog, floats, maxResultRows).Ok?
    ensures Answers(Compile(PlanFor(i, catalog, floats, maxResultRows).value), db, today, answer)
      <==> DirectAnswer(i, catalog, floats, maxResultRows, db, today, answer)
  {
    hide PlanFor, TopOf, Outputs, Results, Governed, DimensionKeysUnique, OrderIndex, RowsWanted, Ascending, SortColumn;
    CompileKeepsOrder(i, catalog, floats, maxResultRows);
    PlanOrder(i, catalog, floats, maxResultRows);
    CompiledYieldsResults(i, catalog, floats, maxResultRows, db, today);
  }

  /** Which fact table a metric's grain stands for, and what a template's column is there: a request
      reads the table of its metric's grain, and a dimension on it the column of its template. */
  lemma FactTableRead(i: Interpretation, catalog: Catalog, floats: Floats, maxResultRows: nat, k: nat)
    requires catalog.Built() && Governed(i, catalog, floats) && k < |i.dimensions|
    ensures PlanFor(i, catalog, floats, maxResultRows).Ok? && i.dimensions[k] in catalog.dimensions
    ensures var q, orders := Compile(PlanFor(i, catalog, floats, maxResultRows).value),
        catalog.metrics[i.metric.value].grain == "order";
      var d := catalog.dimensions[i.dimensions[k]];
      && q.source == (if orders then "fact.orders" else "fact.tenders") && |q.select| == |i.dimensions|
      && (d.table == "__grain__" ==> q.select[k].0 == ColumnRef(if orders then "fo" else "ft",
            match d.column
            case Named(name) => name
            case TimeColumn => if orders then "order_timestamp" else "tender_timestamp"
            case TimeDimensionColumn => if orders then "order_day" else "tender_day"))
  {
    hide PlansFilters, PeriodClauses, DimensionJoins, FilterJoins, PlanDimensions, PlanFilters, FirstOccurrences;
    hide GovernedFilter, DimensionAlias;
    PlanParts(i, catalog, floats, maxResultRows);
    assert GovernedDimension(catalog.metrics[i.metric.value], catalog, i.dimensions[k]);
  }

  lemma CompileKeepsOrder(i: Interpretation, catalog: Catalog, floats: Floats, maxResultRows: nat)
    ensures var r := PlanFor(i, catalog, floats, maxResultRows);
      r.Ok? ==> Compile(r.value).orderBy == r.value.orderBy && Compile(r.value).limit == r.value.limit
  {
    hide PlanFor;
  }
}
