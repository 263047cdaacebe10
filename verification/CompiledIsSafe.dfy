/** Aggregate queries compiled from a catalogue that keeps to policy columns pass the guardrail. */
module CompiledIsSafe {
  import opened Wrappers
  import opened AsciiText
  import opened Sql
  import opened Planner
  import opened CompilerCorrectness
  import Literals
  import LimitText
  import V = SqlValidator
  import opened QueryText
  import opened ServedRows
  import SqlText
  import ColumnReads

  // ---- The parse tree of a compiled query ----

  /** The bare name of "schema.name". */
  function BareName(table: string): string {
    if table == "" then ""
    else if table[0] == '.' then table[1..]
    else if '.' in table then BareName(table[1..])
    else table
  }

  function TableRefOf(table: string, alias: string): V.TableRef {
    V.TableRef(Lower(table), Lower(BareName(table)), Lower(alias))
  }

  function Tables(q: Query): seq<V.TableRef> {
    [TableRefOf(q.source, q.base)]
      + seq(|q.joins|, k requires 0 <= k < |q.joins| => TableRefOf(q.joins[k].table, q.joins[k].alias))
  }

  function Names(q: Query): seq<string> {
    seq(|q.select|, k requires 0 <= k < |q.select| => Lower(q.select[k].1)) + [Lower(q.metricAlias)]
  }

  function UseOf(c: ColumnRef): V.ColumnUse { V.ColumnUse(Lower(c.alias), Lower(c.column)) }

  ghost predicate Mentions(q: Query, c: ColumnRef) {
    || (exists k :: 0 <= k < |q.select| && q.select[k].0 == c)
    || c in References(q.metric.parts)
    || (exists j :: j in q.joins && (c == ColumnRef(j.alias, j.key) || c == ColumnRef(j.base, j.baseColumn)))
    || (exists w :: w in q.where && w.col == c)
    || c in q.groupBy
  }

  /** The columns listed for the query: those it mentions, and the name it is ordered by. */
  ghost predicate ColumnsOf(q: Query, columns: seq<V.ColumnUse>) {
    forall u :: u in columns ==>
      u == V.ColumnUse("", Lower(q.orderBy.output)) || exists c :: Mentions(q, c) && u == UseOf(c)
  }

  // ---- A catalogue that keeps to policy ----

  ghost predicate ApprovedColumn(s: V.Settings, policies: map<string, V.Policy>, table: string, column: string) {
    && table in policies && Lower(column) !in s.forbiddenColumns
    && (policies[table].allowedColumns != {} ==> Lower(column) in policies[table].allowedColumns)
  }

  predicate StartsDim(name: string) { "dim_" <= name }

  /** A whitelisted table with a policy, in lower case, not named like an alias. */
  ghost predicate ApprovedTable(s: V.Settings, policies: map<string, V.Policy>, table: string) {
    && table != "" && table in s.allowedTables && table in policies && Lower(table) == table
    && Lower(BareName(table)) !in {"fo", "ft"} && !StartsDim(Lower(BareName(table)))
  }

  ghost predicate ApprovedDimension(s: V.Settings, policies: map<string, V.Policy>, grain: Grain, d: Dimension) {
    && Lower(d.key) == d.key
    && if d.table == GRAIN_TABLE then ApprovedColumn(s, policies, grain.source, Render(d.column, grain))
       else d.joinPath.Some? ==>
         var p := d.joinPath.value;
         && ApprovedTable(s, policies, p.table)
         && ApprovedColumn(s, policies, p.table, Render(d.column, grain))
         && ApprovedColumn(s, policies, p.table, Render(p.key, grain))
         && ApprovedColumn(s, policies, grain.source, Render(p.baseColumn, grain))
  }

  ghost predicate ApprovedQuestion(s: V.Settings, policies: map<string, V.Policy>, q: Question) {
    && ApprovedTable(s, policies, q.grain.source)
    && ApprovedColumn(s, policies, q.grain.source, q.grain.timeColumn)
    && (forall c :: c in References(q.metric.expression.parts) ==>
          ApprovedColumn(s, policies, q.grain.source, Render(c, q.grain)))
    && (forall d :: Uses(q, d) ==> ApprovedDimension(s, policies, q.grain, d))
  }

  // ---- Aliases stand for their tables ----

  lemma LowerAlias(key: string)
    ensures Lower(DimensionAlias(key)) == DimensionAlias(Lower(key))
    ensures StartsDim(Lower(DimensionAlias(key)))
  {
  }

  lemma LowerBase(grain: Grain)
    requires grain in {ORDER, TENDER}
    ensures Lower(grain.base) == grain.base && grain.base in {"fo", "ft"} && !StartsDim(grain.base)
  {
  }

  /** The plan and the question it answers, with what is assumed of the catalogue. */
  ghost predicate Setting(p: Plan, q: Question, floats: Literals.Floats, dimensions: map<string, Dimension>,
    s: V.Settings, policies: map<string, V.Policy>)
  {
    PlansFor(p, q, floats) && Catalogued(q, dimensions) && ApprovedQuestion(s, policies, q)
  }

  lemma JoinIsApproved(p: Plan, q: Question, floats: Literals.Floats, dimensions: map<string, Dimension>,
    s: V.Settings, policies: map<string, V.Policy>, j: Join) returns (d: Dimension)
    requires Setting(p, q, floats, dimensions, s, policies) && j in p.joins
    ensures Uses(q, d) && JoinOf(d, q.grain) == Some(j) && ApprovedTable(s, policies, j.table)
    ensures j.alias == DimensionAlias(d.key) && Lower(j.alias) == j.alias && StartsDim(j.alias)
    ensures ApprovedColumn(s, policies, j.table, j.key)
    ensures j.base == q.grain.base && ApprovedColumn(s, policies, q.grain.source, j.baseColumn)
  {
    hide PlansFor, ApprovedTable, ApprovedColumn, DimensionAlias, Uses, StartsDim;
    d := JoinedIsUsed(p, q, floats, j);
    LowerAlias(d.key);
  }

  lemma BaseResolves(p: Plan, q: Question, floats: Literals.Floats, dimensions: map<string, Dimension>,
    s: V.Settings, policies: map<string, V.Policy>)
    requires Setting(p, q, floats, dimensions, s, policies)
    ensures var t := Tables(Compile(p)); var aliases := V.AliasMap(t);
      Lower(q.grain.base) in aliases && aliases[Lower(q.grain.base)] == q.grain.source
  {
    hide PlansDimensions, PlansFilters, FirstOccurrences, DimensionJoins, FilterJoins, V.AliasMap;
    hide Catalogued, ApprovedColumn, ApprovedDimension, Uses, BareName;
    var t := Tables(Compile(p));
    LowerBase(q.grain);
    forall k | 0 <= k < |t| && V.GoesBy(t[k], t[0].alias) ensures t[k].id == t[0].id {
      if k > 0 {
        var d := JoinIsApproved(p, q, floats, dimensions, s, policies, p.joins[k - 1]);
      }
    }
    V.AliasResolves(t, 0);
  }

  lemma BaseIsNoJoin(p: Plan, q: Question, floats: Literals.Floats, dimensions: map<string, Dimension>,
    s: V.Settings, policies: map<string, V.Policy>, j: Join)
    requires Setting(p, q, floats, dimensions, s, policies) && j in p.joins
    ensures !V.GoesBy(Tables(Compile(p))[0], j.alias)
  {
    hide PlansDimensions, PlansFilters, FirstOccurrences, DimensionJoins, FilterJoins;
    hide ApprovedColumn, ApprovedDimension, Uses, BareName, DimensionAlias;
    LowerBase(q.grain);
    var d := JoinIsApproved(p, q, floats, dimensions, s, policies, j);
  }

  lemma JoinGoesBy(p: Plan, q: Question, floats: Literals.Floats, dimensions: map<string, Dimension>,
    s: V.Settings, policies: map<string, V.Policy>, i: Join, j: Join)
    requires Setting(p, q, floats, dimensions, s, policies) && i in p.joins && j in p.joins
    requires V.GoesBy(TableRefOf(i.table, i.alias), j.alias)
    ensures Lower(i.table) == j.table
  {
    hide PlansFor, ApprovedColumn, ApprovedDimension, Uses, BareName, DimensionAlias;
    var d := JoinIsApproved(p, q, floats, dimensions, s, policies, j);
    var e := JoinIsApproved(p, q, floats, dimensions, s, policies, i);
    if DimensionAlias(e.key) == DimensionAlias(d.key) { DistinctAliases(d, e); }
  }

  lemma JoinResolves(p: Plan, q: Question, floats: Literals.Floats, dimensions: map<string, Dimension>,
    s: V.Settings, policies: map<string, V.Policy>, j: Join)
    requires Setting(p, q, floats, dimensions, s, policies) && j in p.joins
    ensures var t := Tables(Compile(p)); var aliases := V.AliasMap(t);
      Lower(j.alias) in aliases && aliases[Lower(j.alias)] == j.table
  {
    hide Setting, V.AliasMap, V.GoesBy, StartsDim, ApprovedColumn, Uses, BareName, DimensionAlias, ApprovedTable;
    var t := Tables(Compile(p));
    var n :| 0 <= n < |p.joins| && p.joins[n] == j;
    var d := JoinIsApproved(p, q, floats, dimensions, s, policies, j);
    ApprovedIsLower(s, policies, j.table);
    assert t[n + 1] == TableRefOf(j.table, j.alias);
    forall k | 0 <= k < |t| && V.GoesBy(t[k], j.alias) ensures t[k].id == j.table {
      if k == 0 {
        BaseIsNoJoin(p, q, floats, dimensions, s, policies, j);
      } else {
        assert t[k] == TableRefOf(p.joins[k - 1].table, p.joins[k - 1].alias);
        JoinGoesBy(p, q, floats, dimensions, s, policies, p.joins[k - 1], j);
      }
    }
    DimIsSome(j.alias);
    V.AliasResolves(t, n + 1);
  }

  lemma ApprovedIsLower(s: V.Settings, policies: map<string, V.Policy>, table: string)
    requires ApprovedTable(s, policies, table)
    ensures Lower(table) == table
  {
  }

  lemma DimIsSome(name: string)
    requires StartsDim(name)
    ensures name != ""
  {
  }

  // ---- Every column mentioned is approved ----

  /** A qualified column of the fact table, or of a joined table. */
  ghost predicate OnApprovedTable(p: Plan, q: Question, s: V.Settings, policies: map<string, V.Policy>, c: ColumnRef) {
    || (c.alias == q.grain.base && ApprovedColumn(s, policies, q.grain.source, c.column))
    || (exists j :: j in p.joins && c.alias == j.alias && ApprovedColumn(s, policies, j.table, c.column))
  }

  lemma ApprovedIsOk(p: Plan, q: Question, floats: Literals.Floats, dimensions: map<string, Dimension>,
    s: V.Settings, policies: map<string, V.Policy>, t: V.Tree, c: ColumnRef)
    requires Setting(p, q, floats, dimensions, s, policies) && t.tables == Tables(Compile(p))
    requires OnApprovedTable(p, q, s, policies, c)
    ensures V.ColumnOk(s, t, policies, UseOf(c))
  {
    hide PlansFor, Catalogued, ApprovedDimension, Uses, V.AliasMap, Compile, BareName, V.ColumnOk;
    if c.alias == q.grain.base && ApprovedColumn(s, policies, q.grain.source, c.column) {
      BaseResolves(p, q, floats, dimensions, s, policies);
      LowerSource(q, p, floats);
      V.OkForTable(s, t, policies, UseOf(c), q.grain.source);
    } else {
      var j :| j in p.joins && c.alias == j.alias && ApprovedColumn(s, policies, j.table, c.column);
      var d := JoinIsApproved(p, q, floats, dimensions, s, policies, j);
      JoinResolves(p, q, floats, dimensions, s, policies, j);
      V.OkForTable(s, t, policies, UseOf(c), j.table);
    }
  }

  lemma LowerSource(q: Question, p: Plan, floats: Literals.Floats)
    requires PlansFor(p, q, floats)
    ensures q.grain.source != ""
  {
    hide PlansDimensions, PlansFilters;
  }

  lemma ExpressionIsApproved(p: Plan, q: Question, floats: Literals.Floats, dimensions: map<string, Dimension>,
    s: V.Settings, policies: map<string, V.Policy>, d: Dimension)
    requires Setting(p, q, floats, dimensions, s, policies) && Uses(q, d)
    ensures OnApprovedTable(p, q, s, policies, ExpressionOf(d, q.grain))
  {
    hide PlansFor, ApprovedTable, ApprovedColumn, DimensionAlias, Uses;
    assert ApprovedDimension(s, policies, q.grain, d);
    if d.table != GRAIN_TABLE {
      UsedIsJoined(p, q, floats, d);
      var j := JoinOf(d, q.grain).value;
      assert j in p.joins && j.alias == DimensionAlias(d.key);
    }
  }

  /** The metric's columns are those of its template, on the fact table. */
  lemma MetricColumns(parts: seq<Part<ColumnTemplate>>, grain: Grain, c: ColumnRef) returns (template: ColumnTemplate)
    requires c in References(RenderParts(parts, grain))
    ensures template in References(parts) && c == ColumnRef(grain.base, Render(template, grain))
  {
    hide References;
    ReferencesRendered(parts, grain);
    var k :| 0 <= k < |References(parts)| && References(RenderParts(parts, grain))[k] == c;
    template := References(parts)[k];
  }

  lemma FilterColumn(p: PlannedFilter, d: Dimension, f: FilterValue, grain: Grain, floats: Literals.Floats)
    requires Joinable(d) && PlansFilter(p, d, f, grain, floats)
    ensures p.clause.col == ExpressionOf(d, grain)
  {
    hide Literals.ReadValue, ReadValues, ValuesOf;
    ResolvedDimension(d, grain);
  }

  lemma PeriodColumn(period: Period, time: ColumnRef, c: Condition)
    requires PeriodClauses(period, time).Ok? && c in PeriodClauses(period, time).value
    ensures c.col == time
  {
  }

  lemma TimeIsApproved(p: Plan, q: Question, floats: Literals.Floats, dimensions: map<string, Dimension>,
    s: V.Settings, policies: map<string, V.Policy>)
    requires Setting(p, q, floats, dimensions, s, policies)
    ensures OnApprovedTable(p, q, s, policies, ColumnRef(q.grain.base, q.grain.timeColumn))
  {
    hide PlansFor, Catalogued, ApprovedTable, ApprovedColumn, ApprovedDimension;
  }

  lemma ConditionIsApproved(p: Plan, q: Question, floats: Literals.Floats, dimensions: map<string, Dimension>,
    s: V.Settings, policies: map<string, V.Policy>, w: Condition)
    requires Setting(p, q, floats, dimensions, s, policies) && w in Compile(p).where
    ensures OnApprovedTable(p, q, s, policies, w.col)
  {
    hide PlansDimensions, PlansFilter, PeriodClauses, FirstOccurrences, DimensionJoins, FilterJoins, OnApprovedTable;
    hide ApprovedTable, ApprovedColumn, ApprovedDimension, ExpressionOf;
    var clauses := Clauses(p.filters);
    if w in clauses {
      var k :| 0 <= k < |clauses| && clauses[k] == w;
      assert Uses(q, q.filters[k].0);
      FilterColumn(p.filters[k], q.filters[k].0, q.filters[k].1, q.grain, floats);
      ExpressionIsApproved(p, q, floats, dimensions, s, policies, q.filters[k].0);
    } else {
      var time := ColumnRef(q.grain.base, q.grain.timeColumn);
      assert w in p.period;
      PeriodColumn(q.period, time, w);
      TimeIsApproved(p, q, floats, dimensions, s, policies);
    }
  }

  lemma MentionedIsApproved(p: Plan, q: Question, floats: Literals.Floats, dimensions: map<string, Dimension>,
    s: V.Settings, policies: map<string, V.Policy>, c: ColumnRef)
    requires Setting(p, q, floats, dimensions, s, policies) && Mentions(Compile(p), c)
    ensures OnApprovedTable(p, q, s, policies, c)
  {
    hide PlansFilters, PeriodClauses, FirstOccurrences, DimensionJoins, FilterJoins, References, Clauses;
    hide ApprovedTable, ApprovedColumn, ApprovedDimension, ExpressionOf, JoinOf, Catalogued;
    var compiled := Compile(p);
    if k :| 0 <= k < |p.dimensions| && p.dimensions[k].expression == c {
      assert Uses(q, q.dimensions[k]);
      ExpressionIsApproved(p, q, floats, dimensions, s, policies, q.dimensions[k]);
    } else if c in References(compiled.metric.parts) {
      var template := MetricColumns(q.metric.expression.parts, q.grain, c);
    } else if j :| j in p.joins && (c == ColumnRef(j.alias, j.key) || c == ColumnRef(j.base, j.baseColumn)) {
      var d := JoinIsApproved(p, q, floats, dimensions, s, policies, j);
    } else if w :| w in compiled.where && w.col == c {
      ConditionIsApproved(p, q, floats, dimensions, s, policies, w);
    }
  }

  // ---- Main result ----

  /** The order-by name is always one the statement defines. */
  lemma OrderIsNamed(p: Plan, i: Interpretation, catalog: Catalog, floats: Literals.Floats, maxResultRows: nat)
    requires catalog.Built() && Governed(i, catalog, floats)
    requires PlanFor(i, catalog, floats, maxResultRows) == Ok(p)
    ensures Lower(p.orderBy.output) in Names(Compile(p))
  {
    hide PlansFilters, PeriodClauses, FirstOccurrences, DimensionJoins, FilterJoins, PlanDimensions;
    hide PlanFilters, GovernedDimension;
    hide GovernedFilter;
    PlanParts(i, catalog, floats, maxResultRows);
    var names := Names(Compile(p));
    if DAY in i.dimensions {
      var k :| 0 <= k < |i.dimensions| && i.dimensions[k] == DAY;
      KeyOfDimension(i, catalog, floats, k);
      assert p.dimensions[k].definition == Asked(i, catalog, floats).dimensions[k];
      assert names[k] == Lower(DAY);
    } else {
      assert names[|names| - 1] == Lower(p.metric.key);
    }
  }

  lemma TablesApproved(p: Plan, q: Question, floats: Literals.Floats, dimensions: map<string, Dimension>,
    s: V.Settings, policies: map<string, V.Policy>, k: nat)
    requires Setting(p, q, floats, dimensions, s, policies) && k < |Tables(Compile(p))|
    ensures Tables(Compile(p))[k].id in s.allowedTables && Tables(Compile(p))[k].id in policies
  {
    hide PlansDimensions, PlansFilters, PeriodClauses, FirstOccurrences, DimensionJoins, FilterJoins, Catalogued;
    hide ApprovedColumn, ApprovedDimension, Uses, BareName, RenderParts, Clauses;
    if k > 0 {
      var d := JoinIsApproved(p, q, floats, dimensions, s, policies, p.joins[k - 1]);
      assert Tables(Compile(p))[k] == TableRefOf(p.joins[k - 1].table, p.joins[k - 1].alias);
    }
  }

  /** The table a column of the query is read from. */
  ghost predicate ReadFrom(q: Query, c: ColumnRef, table: string) {
    || (c.alias == q.base && table == q.source)
    || exists j :: j in q.joins && c.alias == j.alias && table == j.table
  }

  /** The parse tree a compiled query has. */
  ghost predicate TreeOf(t: V.Tree, q: Query) {
    && t.tables == Tables(q) && t.outputs == Names(q) && !t.hasStar
    && forall r :: r in t.sources ==>
      exists c :: Mentions(q, c) && ReadFrom(q, c, r.table) && r.column == Lower(c.column)
  }

  /** No column the compiled query reads is forbidden or outside its table's policy, looked up
      by the guardrail or not. */
  lemma CompiledReadsApproved(p: Plan, q: Question, floats: Literals.Floats, dimensions: map<string, Dimension>,
    s: V.Settings, policies: map<string, V.Policy>, t: V.Tree)
    requires Setting(p, q, floats, dimensions, s, policies) && TreeOf(t, Compile(p))
    ensures ColumnReads.AllReadsApproved(s, policies, t)
  {
    hide PlansDimensions, PlansFilters, PeriodClauses, FirstOccurrences, DimensionJoins, FilterJoins, Catalogued;
    hide ApprovedTable, ApprovedDimension, Uses, Mentions;
    PlanJoinsApart(p, q, floats, dimensions);
    forall r | r in t.sources ensures ColumnReads.ReadApproved(s, policies, r) {
      var c :| Mentions(Compile(p), c) && ReadFrom(Compile(p), c, r.table) && r.column == Lower(c.column);
      MentionedIsApproved(p, q, floats, dimensions, s, policies, c);
      OneTable(p, q, s, policies, c, r.table);
    }
  }

  lemma OneTable(p: Plan, q: Question, s: V.Settings, policies: map<string, V.Policy>, c: ColumnRef, table: string)
    requires p.grain == q.grain && JoinsApart(p.joins, p.grain.base)
    requires OnApprovedTable(p, q, s, policies, c) && ReadFrom(Compile(p), c, table)
    ensures ApprovedColumn(s, policies, table, c.column)
  {
    hide ApprovedColumn;
    forall i, j | i in p.joins && j in p.joins && i.alias == j.alias ensures i == j {
      var m :| 0 <= m < |p.joins| && p.joins[m] == i;
      var n :| 0 <= n < |p.joins| && p.joins[n] == j;
    }
  }

  lemma CompileKeeps(p: Plan)
    ensures Compile(p).orderBy == p.orderBy && Compile(p).limit == p.limit
  {
  }

  lemma NamedIsOk(s: V.Settings, t: V.Tree, policies: map<string, V.Policy>, u: V.ColumnUse)
    requires u.name in t.outputs
    ensures V.ColumnOk(s, t, policies, u)
  {
  }

  lemma CompiledIsAcceptable(
    p: Plan, q: Question, floats: Literals.Floats, dimensions: map<string, Dimension>, s: V.Settings, w: V.World,
    text: string, t: V.Tree, columns: seq<V.ColumnUse>)
    requires Setting(p, q, floats, dimensions, s, w.policies)
    requires Lower(p.orderBy.output) in Names(Compile(p))
    requires text != "" && !V.HasWriteWord(text) && V.ReadOnly(text) && w.parse(text) == Some([t])
    requires TreeOf(t, Compile(p)) && ColumnsOf(Compile(p), columns)
    ensures V.Acceptable(s, w, text, Some(columns), t)
  {
    hide Setting, Compile, V.HasWriteWord, V.ReadOnly, V.ColumnOk, Mentions, Names;
    forall r | r in t.tables ensures r.id in s.allowedTables && r.id in w.policies {
      var k :| 0 <= k < |t.tables| && t.tables[k] == r;
      TablesApproved(p, q, floats, dimensions, s, w.policies, k);
    }
    forall u | u in columns ensures V.ColumnOk(s, t, w.policies, u) {
      if u == V.ColumnUse("", Lower(Compile(p).orderBy.output)) {
        CompileKeeps(p);
        NamedIsOk(s, t, w.policies, u);
      } else {
        var c :| Mentions(Compile(p), c) && u == UseOf(c);
        MentionedIsApproved(p, q, floats, dimensions, s, w.policies, c);
        ApprovedIsOk(p, q, floats, dimensions, s, w.policies, t, c);
      }
    }
  }

  lemma AcceptableTables(s: V.Settings, w: V.World, text: string, compiled: Option<seq<V.ColumnUse>>, t: V.Tree)
    requires V.Acceptable(s, w, text, compiled, t)
    ensures forall r :: r in t.tables ==> r.id in w.policies
  {
  }

  lemma PlanAliases(p: Plan, q: Question, floats: Literals.Floats)
    requires PlansFor(p, q, floats)
    ensures AliasesAreNames(Compile(p))
  {
    hide PlansDimensions, PlansFilters, PeriodClauses, FirstOccurrences, DimensionJoins, FilterJoins;
    hide SqlText.StartsNumber;
    forall j | j in p.joins ensures !SqlText.StartsNumber(j.alias) {
      var d := JoinedIsUsed(p, q, floats, j);
      LetterFirst(j.alias);
    }
    LetterFirst(p.grain.base);
  }

  lemma LetterFirst(s: string)
    ensures s != "" && IsLower(s[0]) ==> !SqlText.StartsNumber(s)
  {
  }

  /** The text a compiled query is sent as: the compiler's own, or one that sqlglot renders from
      it, made like it of SELECT, keywords, symbols and given texts, and of its last clause. */
  function Rendered(ps: seq<SqlText.Piece>, sep: char, q: Query): string {
    Clausal(SqlText.TextAfter("SELECT", ps), sep, q.limit)
  }

  /** The template of the compiler is such a text. */
  lemma TemplateIsRendered(i: Interpretation, catalog: Catalog, f: Formats, maxResultRows: nat)
    requires catalog.Built() && Governed(i, catalog, f.floats)
    requires PlanFor(i, catalog, f.floats, maxResultRows).Ok?
    ensures var q := Compile(PlanFor(i, catalog, f.floats, maxResultRows).value);
      && AliasesAreNames(q)
      && SqlText.GoodPieces(true, Pieces(q, f)) && Pieces(q, f) != [] && SqlOf(q, f) == Rendered(Pieces(q, f), '\n', q)
  {
    hide PlanFor, PlansFor, Compile, Governed, Pieces, SqlText.GoodPieces;
    PlanParts(i, catalog, f.floats, maxResultRows);
    AskedIsCatalogued(i, catalog, f.floats);
    var p, asked := PlanFor(i, catalog, f.floats, maxResultRows).value, Asked(i, catalog, f.floats);
    PlanAliases(p, asked, f.floats);
    TextShowsOnlyWhatIsGiven(Compile(p), f);
  }

  /** A governed request, over a catalogue that keeps to whitelisted tables and policy columns,
      rendered as such a text, is blocked exactly when a text given in it, a key, an identifier,
      a literal or the metric's own SQL, has a write word; otherwise it meets every check, and
      reads approved columns only. It then runs under the least of the policies' limits, the
      global one, and the planned one, or the limit that a given text appears to ask for. */
  lemma CompiledQueryPasses(
    i: Interpretation, catalog: Catalog, floats: Literals.Floats, ps: seq<SqlText.Piece>, sep: char, s: V.Settings,
    w: V.World, t: V.Tree, columns: seq<V.ColumnUse>)
    requires catalog.Built() && Governed(i, catalog, floats)
    requires ApprovedQuestion(s, w.policies, Asked(i, catalog, floats))
    requires PlanFor(i, catalog, floats, s.maxResultRows).Ok?
    requires ps != [] && SqlText.GoodPieces(true, ps) && IsSpace(sep)
    requires var q := Compile(PlanFor(i, catalog, floats, s.maxResultRows).value);
      TreeOf(t, q) && ColumnsOf(q, columns) && w.parse(Rendered(ps, sep, q)) == Some([t])
    ensures var q := Compile(PlanFor(i, catalog, floats, s.maxResultRows).value);
      var text, d := Rendered(ps, sep, q), V.Validate(s, w, Rendered(ps, sep, q), Some(columns));
      if SqlText.GivenWriteWord(ps) then d == V.Blocked(V.KeywordDenylist)
      else
        && V.Acceptable(s, w, text, Some(columns), t) && ColumnReads.AllReadsApproved(s, w.policies, t)
        && var body := SqlText.TextAfter("SELECT", ps);
          var f := FinalOf(body, q.limit, V.RowCap(s, w.policies, t.tables));
          var final := Clausal(f.body, sep, f.limit);
          && (d.Passed? <==> V.Affordable(s, w, final))
          && (d.Passed? ==> d.validated.rowLimit == f.rowLimit && d.validated.sql == final)
          && (LimitText.ExtractLimit(body).Some? <==> SqlText.GivenLimit(ps))
  {
    hide PlanFor, PlansFor, Compile, ColumnsOf, TreeOf, V.HasWriteWord, V.ReadOnly, V.ValidateTree;
    hide V.Acceptable, V.WithRowLimit;
    hide V.RowCap, LimitText.ExtractLimit, Names, Governed, ApprovedQuestion, Trim, Clausal, FinalOf;
    hide SqlText.TextAfter, SqlText.GoodPieces, SqlText.GivenWriteWord, SqlText.GivenLimit;
    hide ColumnReads.AllReadsApproved;
    PlanParts(i, catalog, floats, s.maxResultRows);
    AskedIsCatalogued(i, catalog, floats);
    var p, asked := PlanFor(i, catalog, floats, s.maxResultRows).value, Asked(i, catalog, floats);
    var q, text := Compile(p), Rendered(ps, sep, Compile(p));
    SqlText.PiecesShowOnlyWhatIsGiven(ps, sep, q.limit);
    ClausalIsNotEmpty(SqlText.TextAfter("SELECT", ps), sep, q.limit);
    if !SqlText.GivenWriteWord(ps) {
      OrderIsNamed(p, i, catalog, floats, s.maxResultRows);
      CompiledIsAcceptable(p, asked, floats, catalog.dimensions, s, w, text, t, columns);
      CompiledReadsApproved(p, asked, floats, catalog.dimensions, s, w.policies, t);
      AcceptableTables(s, w, text, Some(columns), t);
      V.AcceptablePasses(s, w, text, Some(columns), t);
      WithRowLimitIsFinal(SqlText.TextAfter("SELECT", ps), sep, q.limit, V.RowCap(s, w.policies, t.tables));
    }
  }

  lemma ClausalIsNotEmpty(body: string, sep: char, n: nat)
    ensures Clausal(body, sep, n) != ""
  {
  }

  /** A metric whose key is a write word, which keys may be, is blocked whatever is asked of it. */
  lemma WriteWordKeyIsBlocked(q: Query, f: Formats, s: V.Settings, w: V.World, compiled: Option<seq<V.ColumnUse>>)
    requires AliasesAreNames(q) && q.metricAlias in V.WRITE_WORDS
    ensures V.Validate(s, w, SqlOf(q, f), compiled) == V.Blocked(V.KeywordDenylist)
  {
    hide V.HasWriteWord, V.ReadOnly, V.ValidateTree, Trim, SqlOf, Pieces;
    TextShowsOnlyWhatIsGiven(q, f);
    ClausalIsNotEmpty(SqlBody(q, f), '\n', q.limit);
    MetricKeyIsGiven(q, f);
    SqlText.WriteWordIsOne(q.metricAlias);
  }
}
