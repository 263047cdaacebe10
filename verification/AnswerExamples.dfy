/** Answers that pass the guardrail and mislead: a trend by a time key other than "day" in the
    wrong order, and a page that hides that there is more. */
module AnswerExamples {
  import opened Wrappers
  import opened AsciiText
  import opened Literals
  import opened Sql
  import opened Planner
  import opened CompilerCorrectness
  import opened Payloads
  import opened AnswerPlan
  import opened AnswerMeaning
  import opened TrendOrder
  import opened ServedRows
  import opened QueryText
  import opened CompiledIsSafe
  import LimitText
  import opened SqlText
  import V = SqlValidator

  // ---- The catalogue and the data ----

  /** `COUNT(DISTINCT column)` of the cells of a group. */
  function DistinctCount(cells: seq<seq<Value>>): Value {
    Number(|set c | c in cells && c != [Null]| as real)
  }

  const ORDER_TIME := Dimension("order_time", GRAIN_TABLE, ColumnTemplate.Named("order_timestamp"), None, "timestamp")

  const COUNT_PARTS: seq<Part<ColumnTemplate>> :=
    [Verbatim("COUNT(DISTINCT "), Reference(ColumnTemplate.Named("order_id")), Verbatim(")")]

  const ORDERS := Metric("orders", "order", Expression(COUNT_PARTS, DistinctCount), ["order_time"], [])

  const BY_TIME := Catalog(map["orders" := ORDERS], map["order_time" := ORDER_TIME], map["order_time" := ORDER_TIME])

  const ASKED := Interpretation(Some("orders"), [], [], Missing, None, None)

  const FIRST: Record := map["order_id" := Text("a"), "order_timestamp" := Moment(1)]
  const SECOND: Record := map["order_id" := Text("b"), "order_timestamp" := Moment(1)]
  const THIRD: Record := map["order_id" := Text("c"), "order_timestamp" := Moment(2)]

  const THREE_ORDERS: Database := map["fact.orders" := [FIRST, SECOND, THIRD]]

  function Trend30(): Interpretation { TrendRequest(ASKED, "order_time", 30) }

  ghost predicate AsksOrders(q: Question) {
    q.dimensions == [ORDER_TIME] && q.filters == [] && q.period == Missing && q.grain == ORDER && q.metric == ORDERS
  }

  lemma TrendIsGoverned(floats: Floats, db: Database)
    ensures FanOutFree(Trend30(), BY_TIME, floats, db)
    ensures AsksOrders(Asked(Trend30(), BY_TIME, floats))
  {
    LowerDirections();
  }

  // ---- What it yields ----

  lemma {:induction false} AllFactsAsked(q: Question, floats: Floats, db: Database, today: int, rows: seq<Record>)
    requires AsksOrders(q)
    ensures Facts(q, floats, db, today, rows) == rows
  {
    if rows != [] {
      assert Qualifies(q, floats, db, today, rows[0]);
      AllFactsAsked(q, floats, db, today, rows[1..]);
    }
  }

  lemma TimeOf(q: Question, db: Database, fact: Record)
    requires AsksOrders(q)
    ensures KeyOf(q, db, fact) == [Field(fact, "order_timestamp")]
  {
  }

  lemma OneMoreGrouped(q: Question, db: Database, facts: seq<Record>, last: Record)
    ensures Grouped(q, db, facts + [last]) == AddRow(Grouped(q, db, facts), KeyOf(q, db, last), last)
    ensures Grouped(q, db, []) == []
  {
    assert (facts + [last])[..|facts|] == facts;
  }

  lemma GroupsBuilt()
    ensures AddRow([], [Moment(1)], FIRST) == [Group([Moment(1)], [FIRST])]
    ensures AddRow([Group([Moment(1)], [FIRST])], [Moment(1)], SECOND) == [Group([Moment(1)], [FIRST, SECOND])]
    ensures AddRow([Group([Moment(1)], [FIRST, SECOND])], [Moment(2)], THIRD)
      == [Group([Moment(1)], [FIRST, SECOND]), Group([Moment(2)], [THIRD])]
  {
    assert [FIRST] + [SECOND] == [FIRST, SECOND];
    assert [Group([Moment(1)], [FIRST])][1..] == [] && [Group([Moment(1)], [FIRST, SECOND])][1..] == [];
  }

  lemma OrdersGrouped(q: Question)
    requires AsksOrders(q)
    ensures Grouped(q, THREE_ORDERS, THREE_ORDERS["fact.orders"])
      == [Group([Moment(1)], [FIRST, SECOND]), Group([Moment(2)], [THIRD])]
  {
    hide KeyOf, Grouped, AsksOrders;
    TimeOf(q, THREE_ORDERS, FIRST);
    TimeOf(q, THREE_ORDERS, SECOND);
    TimeOf(q, THREE_ORDERS, THIRD);
    OneMoreGrouped(q, THREE_ORDERS, [], FIRST);
    OneMoreGrouped(q, THREE_ORDERS, [FIRST], SECOND);
    OneMoreGrouped(q, THREE_ORDERS, [FIRST, SECOND], THIRD);
    assert [] + [FIRST] == [FIRST] && [FIRST] + [SECOND] == [FIRST, SECOND];
    assert [FIRST, SECOND] + [THIRD] == THREE_ORDERS["fact.orders"];
    GroupsBuilt();
  }

  lemma OrdersCounted(q: Question)
    requires AsksOrders(q)
    ensures MetricValue(q, [FIRST, SECOND]) == Number(2.0) && MetricValue(q, [THIRD]) == Number(1.0)
  {
    hide CellsRead, DistinctCount;
    CountReferences();
    CellsOfOrders();
    TwoAndOne();
    assert forall rows :: MetricValue(q, rows) == DistinctCount(CellsRead([ORDER_ID], rows, FactField(ORDER)));
  }

  const ORDER_ID := ColumnTemplate.Named("order_id")

  lemma CellsOfOrders()
    ensures CellsRead([ORDER_ID], [FIRST, SECOND], FactField(ORDER)) == [[Text("a")], [Text("b")]]
    ensures CellsRead([ORDER_ID], [THIRD], FactField(ORDER)) == [[Text("c")]]
  {
    hide CellsRead;
    OneColumnRead(ORDER_ID, [FIRST, SECOND], FactField(ORDER));
    OneColumnRead(ORDER_ID, [THIRD], FactField(ORDER));
    assert CellsRead([ORDER_ID], [THIRD], FactField(ORDER))[0] == [Text("c")];
  }

  lemma TwoAndOne()
    ensures DistinctCount([[Text("a")], [Text("b")]]) == Number(2.0) && DistinctCount([[Text("c")]]) == Number(1.0)
  {
    assert (set c | c in [[Text("a")], [Text("b")]] && c != [Null]) == {[Text("a")], [Text("b")]};
    assert (set c | c in [[Text("c")]] && c != [Null]) == {[Text("c")]};
    assert [Text("a")][0] == Text("a");
    assert [Text("a")] != [Text("b")];
  }

  lemma OneColumnRead(column: ColumnTemplate, rows: seq<Record>, get: (Record, ColumnTemplate) -> Value)
    ensures |CellsRead([column], rows, get)| == |rows|
    ensures forall n :: 0 <= n < |rows| ==> CellsRead([column], rows, get)[n] == [get(rows[n], column)]
  {
  }

  lemma CountReferences()
    ensures References(COUNT_PARTS) == [ORDER_ID]
  {
    assert COUNT_PARTS[1..] == [Reference(ColumnTemplate.Named("order_id")), Verbatim(")")];
    assert COUNT_PARTS[1..][1..] == [Verbatim(")")] && COUNT_PARTS[1..][1..][1..] == [];
  }

  lemma OrdersByTime(q: Question, floats: Floats, today: int)
    requires AsksOrders(q)
    ensures Results(q, floats, THREE_ORDERS, today)
      == [Output([Moment(1)], Number(2.0)), Output([Moment(2)], Number(1.0))]
  {
    hide Facts, Grouped, MetricValue;
    AllFactsAsked(q, floats, THREE_ORDERS, today, THREE_ORDERS["fact.orders"]);
    OrdersGrouped(q);
    OrdersCounted(q);
  }

  // ---- The text passes ----

  const SETTINGS := V.Settings({"fact.orders"}, {}, 1000, 1.0)

  const POLICIES: map<string, V.Policy> := map["fact.orders" := V.Policy({"order_id", "order_timestamp"}, 100)]

  const TIME_COLUMN := ColumnRef("fo", "order_timestamp")

  const PLANNED := PlannedDimension(ORDER_TIME, TIME_COLUMN, None)

  lemma TimePlanned()
    ensures PlanDimensions(BY_TIME, ORDERS, ORDER, ["order_time"]) == Ok([PLANNED])
    ensures DimensionJoins([PLANNED]) == []
  {
    var keys := ["order_time"];
    assert keys[..0] == [] && PlanDimensions(BY_TIME, ORDERS, ORDER, []) == Ok([]);
    assert PlanDimension(BY_TIME, ORDERS, ORDER, keys[0]) == Ok(PLANNED);
    assert [] + [PLANNED] == [PLANNED];
  }

  lemma NothingElsePlanned(floats: Floats)
    ensures PlanFilters(BY_TIME, floats, ORDERS, ORDER, []) == Ok([]) && FilterJoins([]) == []
    ensures FirstOccurrences<Join>([]) == [] && GrainOf("order") == Some(ORDER)
  {
  }

  lemma TrendIsPlanned(floats: Floats)
    ensures PlanFor(Trend30(), BY_TIME, floats, 1000)
      == Ok(Plan(ORDERS, ORDER, [PLANNED], [], [], [], OrderBy("orders", true), 30))
  {
    hide PlanDimensions, PlanFilters, DimensionJoins, FilterJoins, FirstOccurrences, GrainOf;
    LowerDirections();
    TimePlanned();
    NothingElsePlanned(floats);
    var none: seq<Join> := [];
    assert none + none == none;
  }

  lemma TrendCompiled(floats: Floats)
    ensures PlanFor(Trend30(), BY_TIME, floats, 1000).Ok?
    ensures var q := Compile(PlanFor(Trend30(), BY_TIME, floats, 1000).value);
      && q.select == [(TIME_COLUMN, "order_time")] && q.metricAlias == "orders" && q.source == "fact.orders"
      && q.base == "fo"
      && q.metric.parts == [Verbatim("COUNT(DISTINCT "), Reference(ColumnRef("fo", "order_id")), Verbatim(")")]
      && q.joins == [] && q.where == [] && q.groupBy == [TIME_COLUMN] && q.orderBy == OrderBy("orders", true)
      && q.limit == 30
  {
    hide PlanFor;
    TrendIsPlanned(floats);
  }

  const COUNT_TEXT := "COUNT(DISTINCT " + "fo.order_id)"

  lemma PlainWords()
    ensures PlainWord("fo") && PlainWord("order_timestamp") && PlainWord("order_time") && PlainWord("orders")
    ensures PlainWord("")
    ensures PlainWord("fact") && PlainWord("order_id") && PlainWord("DISTINCT") && PlainWord("COUNT")
  {
    hide PlainWord;
    TimeWords();
    TimeWord();
    ShortWord();
    OrderWords();
    CountWord();
    DistinctWord();
    IdWord();
  }

  lemma TimeWords()
    ensures PlainWord("order_timestamp")
  {
  }

  lemma ShortWord()
    ensures PlainWord("fo")
  {
  }

  lemma TimeWord()
    ensures PlainWord("order_time")
  {
  }

  lemma OrderWords()
    ensures PlainWord("orders") && PlainWord("") && PlainWord("fact")
  {
  }

  lemma CountWord()
    ensures PlainWord("COUNT")
  {
  }

  lemma DistinctWord()
    ensures PlainWord("DISTINCT")
  {
  }

  lemma IdWord()
    ensures PlainWord("order_id")
  {
  }

  lemma Junctions()
    ensures forall s :: s in {"(", " ", ".", ")"} ==> s != "" && LimitText.NoWord(s)
  {
  }

  lemma CountIsHarmless()
    ensures Harmless(COUNT_TEXT) && Harmless("fact.orders")
  {
    hide Harmless, PlainWord;
    PlainWords();
    PlainIsHarmless("COUNT");
    PlainIsHarmless("fact");
    Junctions();
    Joined("fact", ".", "orders");
    Joined("COUNT", "(", "DISTINCT");
    Joined("COUNT" + "(" + "DISTINCT", " ", "fo");
    Joined("COUNT" + "(" + "DISTINCT" + " " + "fo", ".", "order_id");
    Joined("COUNT" + "(" + "DISTINCT" + " " + "fo" + "." + "order_id", ")", "");
    assert "fact" + "." + "orders" == "fact.orders";
    assert "COUNT" + "(" + "DISTINCT" + " " == "COUNT(DISTINCT ";
    assert "fo" + "." + "order_id" + ")" + "" == "fo.order_id)";
    assert "COUNT" + "(" + "DISTINCT" + " " + "fo" + "." + "order_id" + ")" + ""
        == ("COUNT" + "(" + "DISTINCT" + " ") + ("fo" + "." + "order_id" + ")" + "");
  }

  const GIVEN: set<string> := {"fo", "order_timestamp", "order_time", "orders", "fact.orders", COUNT_TEXT}

  predicate OnlyGiven(ps: seq<Piece>) { forall p :: p in ps && p.given ==> p.body in GIVEN }

  lemma BothOnlyGiven(a: seq<Piece>, b: seq<Piece>)
    requires OnlyGiven(a) && OnlyGiven(b)
    ensures OnlyGiven(a + b)
  {
  }

  lemma CountShown(parts: seq<Part<ColumnRef>>)
    requires parts == [Verbatim("COUNT(DISTINCT "), Reference(ColumnRef("fo", "order_id")), Verbatim(")")]
    ensures MetricText(parts) == COUNT_TEXT
  {
    assert parts[1..] == [Reference(ColumnRef("fo", "order_id")), Verbatim(")")] && parts[1..][1..] == [Verbatim(")")];
    assert parts[1..][1..][1..] == [] && MetricText([Verbatim(")")]) == ")" + "";
    assert MetricText(parts[1..]) == "fo" + "." + "order_id" + (")" + "");
    assert "fo" + "." + "order_id" + (")" + "") == "fo.order_id)";
  }

  lemma SelectGiven(q: Query)
    requires q.select == [(TIME_COLUMN, "order_time")] && q.metricAlias == "orders"
    requires MetricText(q.metric.parts) == COUNT_TEXT
    ensures OnlyGiven(SelectPieces(q.select)) && OnlyGiven(MetricPieces(q))
  {
    assert q.select[..0] == [] && SelectPieces([]) == [];
    assert SelectPieces(q.select) == [] + (ColumnPieces("\n  ", TIME_COLUMN) + NamedPieces("order_time"));
  }

  lemma RestGiven(q: Query, f: Formats)
    requires q.source == "fact.orders" && q.base == "fo" && q.joins == [] && q.where == [] && q.groupBy == [TIME_COLUMN]
    requires q.orderBy == OrderBy("orders", true)
    ensures OnlyGiven(FromPieces(q)) && OnlyGiven(GroupPieces(q.groupBy)) && OnlyGiven(OrderPieces(q.orderBy))
    ensures JoinsPieces(q.joins) == [] && WherePieces(f, q.where) == []
  {
  }

  /** The texts given in the compiled query. */
  lemma TextsGiven(q: Query, f: Formats)
    requires q.select == [(TIME_COLUMN, "order_time")] && q.metricAlias == "orders"
    requires q.source == "fact.orders" && q.base == "fo"
    requires q.metric.parts == [Verbatim("COUNT(DISTINCT "), Reference(ColumnRef("fo", "order_id")), Verbatim(")")]
    requires q.joins == [] && q.where == [] && q.groupBy == [TIME_COLUMN] && q.orderBy == OrderBy("orders", true)
    ensures OnlyGiven(Pieces(q, f))
  {
    hide OnlyGiven, SelectPieces, MetricPieces, FromPieces, JoinsPieces, WherePieces, GroupPieces;
    hide OrderPieces, MetricText;
    CountShown(q.metric.parts);
    SelectGiven(q);
    RestGiven(q, f);
    var a := SelectPieces(q.select) + MetricPieces(q);
    BothOnlyGiven(SelectPieces(q.select), MetricPieces(q));
    BothOnlyGiven(a, FromPieces(q));
    BothOnlyGiven(a + FromPieces(q), GroupPieces(q.groupBy));
    BothOnlyGiven(a + FromPieces(q) + GroupPieces(q.groupBy), OrderPieces(q.orderBy));
    assert Pieces(q, f) == a + FromPieces(q) + GroupPieces(q.groupBy) + OrderPieces(q.orderBy);
  }

  /** So the guardrail finds neither a write word nor a LIMIT in them. */
  lemma GivenAreHarmless(ps: seq<Piece>)
    requires OnlyGiven(ps)
    ensures !GivenWriteWord(ps) && !GivenLimit(ps)
  {
    hide V.HasWriteWord, LimitText.ExtractLimit, PlainWord;
    PlainWords();
    CountIsHarmless();
    forall p | p in ps && p.given ensures Harmless(p.body) {
      if p.body !in {"fact.orders", COUNT_TEXT} { PlainIsHarmless(p.body); }
    }
  }

  // ---- The catalogue keeps to policy ----

  lemma {:induction false} NameAfterSchema(schema: string, name: string)
    requires '.' !in schema
    ensures BareName(schema + "." + name) == name
  {
    var t := schema + "." + name;
    if schema == "" {
      assert t[0] == '.' && t[1..] == name;
    } else {
      assert t[0] == schema[0] && t[0] in schema && t[1..] == schema[1..] + "." + name && t[|schema|] == '.';
      NameAfterSchema(schema[1..], name);
    }
  }

  lemma OrdersTable()
    ensures ApprovedTable(SETTINGS, POLICIES, "fact.orders")
  {
    hide BareName;
    NameAfterSchema("fact", "orders");
    assert "fact" + "." + "orders" == "fact.orders";
    OrdersLower();
  }

  lemma OrdersLower()
    ensures Lower("fact.orders") == "fact.orders" && Lower("orders") == "orders" && Lower("orders")[0] == 'o'
    ensures Lower("orders") !in {"fo", "ft"}
  {
  }

  lemma OrdersColumns()
    ensures ApprovedColumn(SETTINGS, POLICIES, "fact.orders", "order_id")
    ensures ApprovedColumn(SETTINGS, POLICIES, "fact.orders", "order_timestamp")
  {
    assert Lower("order_id") == "order_id" && Lower("order_timestamp") == "order_timestamp";
  }

  lemma OrdersAreApproved(q: Question)
    requires AsksOrders(q)
    ensures ApprovedQuestion(SETTINGS, POLICIES, q)
  {
    hide ApprovedTable, ApprovedColumn, References;
    CountReferences();
    OrdersTable();
    OrdersColumns();
    assert Lower("order_time") == "order_time";
  }

  // ---- The whole example ----

  const TREE := V.Tree(
    [V.TableRef("fact.orders", "orders", "fo")], ["order_time", "orders"],
    [V.ColumnUse("fo", "order_timestamp"), V.ColumnUse("fo", "order_id"), V.ColumnUse("", "orders")], false,
    [V.Read("fact.orders", "order_timestamp"), V.Read("fact.orders", "order_id")])

  const WORLD := V.World(_ => Some([TREE]), POLICIES, _ => Some(0.0))

  lemma TreeOfTrend(q: Query)
    requires q.select == [(TIME_COLUMN, "order_time")] && q.metricAlias == "orders"
    requires q.source == "fact.orders" && q.base == "fo"
    requires q.metric.parts == [Verbatim("COUNT(DISTINCT "), Reference(ColumnRef("fo", "order_id")), Verbatim(")")]
    requires q.joins == [] && q.groupBy == [TIME_COLUMN] && q.orderBy == OrderBy("orders", true)
    ensures TreeOf(TREE, q) && ColumnsOf(q, TREE.columns)
  {
    hide BareName, References;
    NameAfterSchema("fact", "orders");
    assert "fact" + "." + "orders" == "fact.orders";
    OrdersLower();
    NamesLower();
    var id := ColumnRef("fo", "order_id");
    assert id in References(q.metric.parts) by { IdReferenced(q.metric.parts); }
    assert q.select[0].0 == TIME_COLUMN;
    assert Mentions(q, TIME_COLUMN) && Mentions(q, id);
    assert ReadFrom(q, TIME_COLUMN, "fact.orders") && ReadFrom(q, id, "fact.orders");
  }

  lemma IdReferenced(parts: seq<Part<ColumnRef>>)
    requires parts == [Verbatim("COUNT(DISTINCT "), Reference(ColumnRef("fo", "order_id")), Verbatim(")")]
    ensures References(parts) == [ColumnRef("fo", "order_id")]
  {
    assert parts[1..] == [Reference(ColumnRef("fo", "order_id")), Verbatim(")")] && parts[1..][1..] == [Verbatim(")")];
    assert parts[1..][1..][1..] == [] && References(parts[1..][1..]) == [];
    assert References(parts[1..]) == [ColumnRef("fo", "order_id")];
  }

  lemma NamesLower()
    ensures Lower("fo") == "fo" && Lower("order_time") == "order_time"
    ensures Lower("order_id") == "order_id" && Lower("order_timestamp") == "order_timestamp"
  {
  }

  lemma CapIsHundred()
    ensures (forall r :: r in TREE.tables ==> r.id in POLICIES) && V.RowCap(SETTINGS, POLICIES, TREE.tables) == 100
  {
    assert TREE.tables[1..] == [];
  }

  /** The guardrail passes the compiled trend as it stands, for thirty rows. */
  lemma TrendPasses(f: Formats)
    ensures PlanFor(Trend30(), BY_TIME, f.floats, 1000).Ok?
    ensures var q := Compile(PlanFor(Trend30(), BY_TIME, f.floats, 1000).value);
      var d := V.Validate(SETTINGS, WORLD, SqlOf(q, f), Some(TREE.columns));
      d.Passed? && d.validated.sql == SqlOf(q, f) && d.validated.rowLimit == 30
  {
    hide PlanFor, Compile, Governed, ApprovedQuestion, TreeOf, ColumnsOf, V.Validate, V.RowCap, V.Acceptable;
    hide Pieces, OnlyGiven;
    hide GivenWriteWord, GivenLimit, GoodPieces, LimitText.ExtractLimit, TextAfter, Clausal;
    TrendCompiled(f.floats);
    TrendIsGoverned(f.floats, THREE_ORDERS);
    var q := Compile(PlanFor(Trend30(), BY_TIME, f.floats, 1000).value);
    OrdersAreApproved(Asked(Trend30(), BY_TIME, f.floats));
    TreeOfTrend(q);
    TemplateIsRendered(Trend30(), BY_TIME, f, 1000);
    TextsGiven(q, f);
    GivenAreHarmless(Pieces(q, f));
    CapIsHundred();
    CompiledQueryPasses(Trend30(), BY_TIME, f.floats, Pieces(q, f), '\n', SETTINGS, WORLD, TREE, TREE.columns);
  }

  /** Two orders at one moment and one later: asked as a trend, they are shown by the later moment
      first, for it has the smaller figure. */
  lemma QuietMomentComesFirst(s: Platform, f: Formats)
    requires s.catalog == BY_TIME && s.maxResultRows == 1000 && f.floats == s.floats
    ensures var plan := BuildPlan(AnswerDecision(Trend, None, "", []), Request(ASKED, None), BY_TIME, s.today);
      plan.Ok? && plan.value.primary.interpretation == Trend30()
    ensures PlanFor(Trend30(), BY_TIME, s.floats, 1000).Ok?
    ensures var q := Compile(PlanFor(Trend30(), BY_TIME, s.floats, 1000).value);
      var d := V.Validate(SETTINGS, WORLD, SqlOf(q, f), Some(TREE.columns));
      d.Passed? && d.validated.sql == SqlOf(q, f) && d.validated.rowLimit == 30
    ensures !AlwaysInTime(Trend30(), s, THREE_ORDERS, 30)
  {
    hide Asked, Results, FanOutFree, MayReturn, Governed, PlanFor, Compile, V.Validate, SqlOf, AsksOrders;
    TrendPasses(f);
    TrendIsGoverned(s.floats, THREE_ORDERS);
    TrendInTimeIff(ASKED, "order_time", 30, s, THREE_ORDERS, 30);
    OrdersByTime(Asked(Trend30(), BY_TIME, s.floats), s.floats, s.today);
    var rows := GroupsAsked(Trend30(), s, THREE_ORDERS);
    LaterFirst(rows);
    TrendPlanned(s.today);
  }

  lemma LaterFirst(rows: seq<Output>)
    requires rows == [Output([Moment(1)], Number(2.0)), Output([Moment(2)], Number(1.0))]
    ensures OneKey(rows) && !NoneMayComeBefore(rows, 30)
  {
    assert rows[1] in rows && rows[0] in rows;
    assert CountBelow(rows, rows[0]) <= |rows|;
    assert MayComeBefore(rows, 30, rows[1], rows[0]);
  }

  lemma TimeChosen(d: AnswerDecision, request: Request)
    requires d == AnswerDecision(Trend, None, "", []) && request == Request(ASKED, None)
    ensures TimeDimension(request, ORDERS, BY_TIME, d) == Some("order_time")
  {
    var allowed := ["order_time"];
    assert [] + [] + allowed == allowed;
    assert NonEmpty(allowed) == allowed by { assert allowed[1..] == []; }
    assert IsTime(allowed[0], BY_TIME);
  }

  lemma TrendPlanned(today: int)
    ensures var plan := BuildPlan(AnswerDecision(Trend, None, "", []), Request(ASKED, None), BY_TIME, today);
      plan.Ok? && plan.value.primary.interpretation == Trend30()
  {
    hide TimeDimension, CategoryDimension, KpiSpecs, ReportSpecs, ComparisonSpecs, DistributionSpecs;
    TimeChosen(AnswerDecision(Trend, None, "", []), Request(ASKED, None));
  }

  // ---- A page cut by a policy ----

  const PAGE_PIECES: seq<Piece> :=
    ColumnPieces("\n  ", ColumnRef("fo", "order_id")) + NamedPieces("order_id")
      + [Own("\n", "FROM"), Given(" ", "fact.orders"), Given(" ", "fo")]

  const PAGE_BODY := TextAfter("SELECT", PAGE_PIECES)

  const PAGE_TREE := V.Tree(
    [V.TableRef("fact.orders", "orders", "fo")], ["order_id"], [V.ColumnUse("fo", "order_id")], false,
    [V.Read("fact.orders", "order_id")])

  /** The policy of the caller's role allows twenty rows. */
  const TWENTY := V.World(_ => Some([PAGE_TREE]), map["fact.orders" := V.Policy({}, 20)], _ => Some(0.0))

  lemma PageIsGood()
    ensures PAGE_PIECES != [] && GoodPieces(true, PAGE_PIECES)
    ensures forall p :: p in PAGE_PIECES && p.given ==> p.body in {"fo", "order_id", "fact.orders"}
  {
    hide GoodPieces, GoodPiece, StartsNumber, PlainWord;
    PlainWords();
    assert !StartsNumber("fo") by { FoIsName(); }
    GoodColumn(true, "\n  ", ColumnRef("fo", "order_id"));
    GoodName("order_id");
    OwnIsGood(false, "\n", "FROM");
    GivenIsGood(true, " ", "fact.orders");
    GivenIsGood(false, " ", "fo");
    GoodThree(false, Own("\n", "FROM"), Given(" ", "fact.orders"), Given(" ", "fo"));
    GoodAppend(true, ColumnPieces("\n  ", ColumnRef("fo", "order_id")), NamedPieces("order_id"));
    GoodAppend(true, ColumnPieces("\n  ", ColumnRef("fo", "order_id")) + NamedPieces("order_id"),
      [Own("\n", "FROM"), Given(" ", "fact.orders"), Given(" ", "fo")]);
  }

  lemma FoIsName()
    ensures !StartsNumber("fo")
  {
  }

  lemma PageIsHarmless()
    ensures !GivenWriteWord(PAGE_PIECES) && !GivenLimit(PAGE_PIECES)
  {
    hide V.HasWriteWord, LimitText.ExtractLimit, PlainWord;
    PlainWords();
    PageIsGood();
    CountIsHarmless();
    PlainIsHarmless("fo");
    PlainIsHarmless("order_id");
    assert forall p :: p in PAGE_PIECES && p.given ==> Harmless(p.body);
  }

  lemma PagePasses()
    ensures var d := V.Validate(SETTINGS, TWENTY, Clausal(PAGE_BODY, '\n', 26), Some(PAGE_TREE.columns));
      d.Passed? && d.validated.rowLimit == 20
    ensures PAGE_BODY != "" && !IsSpace(PAGE_BODY[0]) && LimitText.ExtractLimit(PAGE_BODY) == None
  {
    hide V.HasWriteWord, V.ReadOnly, V.WithRowLimit, V.RowCap, Clausal, LimitText.ExtractLimit, TextAfter, Trim;
    hide GoodPieces, GivenWriteWord, GivenLimit, FinalOf;
    PageIsGood();
    PageIsHarmless();
    PiecesShowOnlyWhatIsGiven(PAGE_PIECES, '\n', 26);
    CapIsTwenty();
    V.TreeDecision(SETTINGS, TWENTY, Clausal(PAGE_BODY, '\n', 26), PAGE_TREE, Some(PAGE_TREE.columns));
    WithRowLimitIsFinal(PAGE_BODY, '\n', 26, 20);
    TwentyIsFinal(PAGE_BODY);
    ClausalIsNotEmpty(PAGE_BODY, '\n', 26);
    assert PAGE_TREE.tables[0].id in V.TableIds(PAGE_TREE.tables);
  }

  lemma TwentyIsFinal(body: string)
    requires LimitText.ExtractLimit(body) == None
    ensures FinalOf(body, 26, 20).rowLimit == 20 && ServedLimit(body, 26, 20) == 20
  {
  }

  lemma CapIsTwenty()
    ensures (forall r :: r in PAGE_TREE.tables ==> r.id in TWENTY.policies)
    ensures V.RowCap(SETTINGS, TWENTY.policies, PAGE_TREE.tables) == 20
  {
    assert PAGE_TREE.tables[1..] == [];
  }

  lemma RecordsCompiled(floats: Floats)
    ensures var r := CompileRecords(ASKED.(limit := Some(26)), BY_TIME, floats, 1000);
      r.Ok? && r.value.RecordQuery? && r.value.records.limit == 26
  {
  }

  /** Thirty records, a global cap of a thousand and a policy of twenty rows: the page shows
      twenty and says that there are no more. */
  lemma PolicyHidesMore(floats: Floats, found: seq<Record>)
    requires |found| == 30
    ensures var r := CompileRecords(ASKED.(limit := Some(26)), BY_TIME, floats, SETTINGS.maxResultRows);
      r.Ok? && r.value.RecordQuery? && r.value.records.limit == 26
    ensures var d := V.Validate(SETTINGS, TWENTY, Clausal(PAGE_BODY, '\n', 26), Some(PAGE_TREE.columns));
      && d.Passed?
      && var f := FinalOf(PAGE_BODY, 26, V.RowCap(SETTINGS, TWENTY.policies, PAGE_TREE.tables));
      var page := PageOf(Served(found, f), TABLE_PAGE);
      && d.validated.sql == Clausal(f.body, '\n', f.limit) && d.validated.rowLimit == f.rowLimit
      && |page.rows| == 20 && !page.hasMore && !TellsWhetherMore(page, found)
  {
    hide V.Validate, V.RowCap, Clausal, LimitText.ExtractLimit, TextAfter, CompileRecords, FinalOf, Served;
    hide TellsWhetherMore;
    RecordsCompiled(floats);
    PagePasses();
    CapIsTwenty();
    TwentyIsFinal(PAGE_BODY);
    var t := PageIsHonestIff(SETTINGS, TWENTY, PAGE_BODY, '\n', ASKED, BY_TIME, floats, PAGE_TREE.columns, found);
    TellsMeans(PageOf(Served(found, FinalOf(PAGE_BODY, 26, 20)), TABLE_PAGE), found);
  }

  lemma TellsMeans(page: Page, found: seq<Record>)
    ensures TellsWhetherMore(page, found) <==> (page.hasMore <==> |found| > |page.rows|)
  {
  }
}
