/** A compiled query as text, clause by clause. */
module QueryText {
  import opened Wrappers
  import opened AsciiText
  import opened LimitText
  import opened Literals
  import opened Sql
  import opened SqlValidator
  import opened SqlText
  import opened ServedRows

  /** Python's `str` of a float, and the text of a day in a period as the request gave it. */
  datatype Formats = Formats(floats: Floats, day: int -> string)

  function ColumnPieces(symbols: string, c: ColumnRef): seq<Piece> { [Given(symbols, c.alias), Given(".", c.column)] }

  function NamedPieces(name: string): seq<Piece> { [Own(" ", "AS"), Given(" ", name)] }

  /** The selected columns, each with a comma or a new line before it. */
  function SelectPieces(select: seq<(ColumnRef, string)>): seq<Piece> {
    if select == [] then []
    else
      var n := |select| - 1;
      SelectPieces(select[..n])
        + (ColumnPieces(if n == 0 then "\n  " else ", ", select[n].0) + NamedPieces(select[n].1))
  }

  /** The metric's own SQL with its columns filled in. */
  function MetricText(parts: seq<Part<ColumnRef>>): string {
    if parts == [] then ""
    else
      (match parts[0] case Verbatim(text) => text case Reference(c) => c.alias + "." + c.column)
        + MetricText(parts[1..])
  }

  function MetricPieces(q: Query): seq<Piece> {
    [Given(if q.select == [] then "\n  " else ", ", MetricText(q.metric.parts))] + NamedPieces(q.metricAlias)
  }

  function FromPieces(q: Query): seq<Piece> { [Own("\n", "FROM"), Given(" ", q.source), Given(" ", q.base)] }

  function OnPieces(j: Join): seq<Piece> {
    ColumnPieces(" ", ColumnRef(j.alias, j.key)) + ColumnPieces(" = ", ColumnRef(j.base, j.baseColumn))
  }

  function JoinPieces(j: Join): seq<Piece> {
    (if j.kind.Left? then [Own("\n", "LEFT"), Own(" ", "JOIN")] else [Own("\n", "JOIN")])
      + ([Given(" ", j.table), Given(" ", j.alias), Own(" ", "ON")] + OnPieces(j))
  }

  function JoinsPieces(joins: seq<Join>): seq<Piece> {
    if joins == [] then [] else JoinPieces(joins[0]) + JoinsPieces(joins[1..])
  }

  function ListPieces(floats: Floats, ls: seq<Literal>): seq<Piece> {
    if ls == [] then [] else [Given(", ", PrintLiteral(floats, ls[0]))] + ListPieces(floats, ls[1..])
  }

  const ONE_DAY: seq<Piece> := [Own("' + ", "INTERVAL"), Given(" '", "1"), Own(" ", "day"), Own("'", "")]

  /** A condition after its connective; `DATE(column)` stands before the column. */
  function ConditionPieces(f: Formats, connective: string, c: Condition): seq<Piece> {
    match c
    case Equals(col, l) => [Own("\n", connective)] + ColumnPieces(" ", col) + [Given(" = ", PrintLiteral(f.floats, l))]
    case OneOf(col, ls) =>
      [Own("\n", connective)] + ColumnPieces(" ", col)
        + (if ls == [] then [Own(" ", "IN"), Own(" ()", "")]
           else
             [Own(" ", "IN"), Given(" (", PrintLiteral(f.floats, ls[0]))] + ListPieces(f.floats, ls[1..])
             + [Own(")", "")])
    case Between(col, lo, hi) =>
      [Own("\n", connective)] + ColumnPieces(" ", col)
        + [Own(" ", "BETWEEN"), Given(" ", PrintLiteral(f.floats, lo)), Own(" ", "AND"),
           Given(" ", PrintLiteral(f.floats, hi))]
    case SinceDaysAgo(col, days) =>
      [Own("\n", connective)] + ColumnPieces(" ", col)
        + [Own(" >= ", "CURRENT_DATE"), Own(" - ", "INTERVAL"), Given(" '", PrintInt(days)), Own(" ", "days"),
           Own("'", "")]
    case OnOrAfter(col, day) =>
      [Own("\n", connective)] + ColumnPieces(" ", col) + [Own(" >= ", "DATE"), Given(" '", f.day(day)), Own("'", "")]
    case BeforeEndOf(col, day) =>
      [Own("\n", connective)] + ColumnPieces(" ", col) + [Own(" < ", "DATE"), Given(" '", f.day(day))] + ONE_DAY
    case WithinDay(col, day) =>
      [Own("\n", connective), Own(" ", "DATE")] + ColumnPieces("(", col)
        + [Own(") = ", "DATE"), Given(" '", f.day(day)), Own("'", "")]
  }

  function WherePieces(f: Formats, where: seq<Condition>): seq<Piece> {
    if where == [] then []
    else
      var n := |where| - 1;
      WherePieces(f, where[..n]) + ConditionPieces(f, if n == 0 then "WHERE" else "AND", where[n])
  }

  function GroupPieces(groupBy: seq<ColumnRef>): seq<Piece> {
    if groupBy == [] then []
    else if |groupBy| == 1 then [Own("\n", "GROUP"), Own(" ", "BY")] + ColumnPieces(" ", groupBy[0])
    else GroupPieces(groupBy[..|groupBy| - 1]) + ColumnPieces(", ", groupBy[|groupBy| - 1])
  }

  function OrderPieces(o: OrderBy): seq<Piece> {
    [Own("\n", "ORDER"), Own(" ", "BY"), Given(" ", o.output), Own(" ", if o.ascending then "ASC" else "DESC")]
  }

  function Pieces(q: Query, f: Formats): seq<Piece> {
    SelectPieces(q.select) + MetricPieces(q) + FromPieces(q) + JoinsPieces(q.joins) + WherePieces(f, q.where)
      + GroupPieces(q.groupBy) + OrderPieces(q.orderBy)
  }

  function SqlBody(q: Query, f: Formats): string { TextAfter("SELECT", Pieces(q, f)) }

  function SqlOf(q: Query, f: Formats): string { Clausal(SqlBody(q, f), '\n', q.limit) }

  // ---- The printer's own part is harmless ----

  /** Aliases begin with a letter. */
  ghost predicate AliasesAreNames(q: Query) {
    !StartsNumber(q.base) && forall j :: j in q.joins ==> !StartsNumber(j.alias)
  }

  const BLANKS: seq<string> := [" ", "\n", "\n  "]

  const MARKS: seq<string> := [", ", ".", " = ", " (", "(", ")", " '", "'", " >= ", " - ", " < ", ") = ", "' + ", " ()"]

  lemma Signs(s: string)
    ensures s in BLANKS || s in MARKS ==> s != "" && NoWord(s)
    ensures s in MARKS ==> HasMark(s)
  {
  }

  predicate IsSign(s: string) { s in BLANKS || s in MARKS }

  lemma OwnIsGood(afterKeyword: bool, symbols: string, keyword: string)
    requires IsSign(symbols) && (keyword == "" || keyword in KEYWORDS)
    ensures GoodPiece(afterKeyword, Own(symbols, keyword))
  {
    Signs(symbols);
  }

  lemma GivenIsGood(afterKeyword: bool, symbols: string, text: string)
    requires IsSign(symbols) && (symbols in MARKS || afterKeyword || !StartsNumber(text))
    ensures GoodPiece(afterKeyword, Given(symbols, text))
  {
    Signs(symbols);
  }

  lemma GoodColumn(afterKeyword: bool, symbols: string, c: ColumnRef)
    requires IsSign(symbols) && (symbols in MARKS || afterKeyword)
    ensures GoodPieces(afterKeyword, ColumnPieces(symbols, c))
  {
    hide GoodPiece;
    GivenIsGood(afterKeyword, symbols, c.alias);
    GivenIsGood(false, ".", c.column);
    GoodTwo(afterKeyword, Given(symbols, c.alias), Given(".", c.column));
  }

  lemma GoodName(name: string)
    ensures GoodPieces(false, NamedPieces(name))
  {
    hide GoodPiece;
    OwnIsGood(false, " ", "AS");
    GivenIsGood(true, " ", name);
    GoodTwo(false, Own(" ", "AS"), Given(" ", name));
  }

  lemma {:induction false} GoodSelect(select: seq<(ColumnRef, string)>)
    ensures GoodPieces(true, SelectPieces(select))
  {
    hide GoodPiece, ColumnPieces, NamedPieces, GoodPieces;
    if select == [] {
      NoPieces();
    } else {
      var n := |select| - 1;
      GoodSelect(select[..n]);
      GoodName(select[n].1);
      if n == 0 {
        NoPieces();
        GoodColumn(true, "\n  ", select[n].0);
        GoodAppend(true, ColumnPieces("\n  ", select[n].0), NamedPieces(select[n].1));
        assert SelectPieces(select) == ColumnPieces("\n  ", select[n].0) + NamedPieces(select[n].1);
      } else {
        GoodColumn(false, ", ", select[n].0);
        GoodAppend(false, ColumnPieces(", ", select[n].0), NamedPieces(select[n].1));
        GoodAppend(true, SelectPieces(select[..n]), ColumnPieces(", ", select[n].0) + NamedPieces(select[n].1));
      }
    }
  }

  lemma GoodMetric(q: Query)
    ensures GoodPieces(q.select == [], MetricPieces(q))
  {
    hide GoodPiece, NamedPieces, GoodPieces;
    var symbols := if q.select == [] then "\n  " else ", ";
    GivenIsGood(q.select == [], symbols, MetricText(q.metric.parts));
    GoodOne(q.select == [], Given(symbols, MetricText(q.metric.parts)));
    GoodName(q.metricAlias);
    GoodAppend(q.select == [], [Given(symbols, MetricText(q.metric.parts))], NamedPieces(q.metricAlias));
  }

  lemma GoodFrom(q: Query)
    requires !StartsNumber(q.base)
    ensures GoodPieces(false, FromPieces(q))
  {
    hide GoodPiece, GoodPieces, StartsNumber;
    OwnIsGood(false, "\n", "FROM");
    GivenIsGood(true, " ", q.source);
    GivenIsGood(false, " ", q.base);
    GoodThree(false, Own("\n", "FROM"), Given(" ", q.source), Given(" ", q.base));
  }

  lemma GoodOn(j: Join)
    requires !StartsNumber(j.alias)
    ensures GoodPieces(true, [Given(" ", j.table), Given(" ", j.alias), Own(" ", "ON")] + OnPieces(j))
  {
    hide GoodPiece, GoodPieces, StartsNumber, ColumnPieces;
    GoodColumn(true, " ", ColumnRef(j.alias, j.key));
    GoodColumn(false, " = ", ColumnRef(j.base, j.baseColumn));
    GoodAppend(true, ColumnPieces(" ", ColumnRef(j.alias, j.key)),
      ColumnPieces(" = ", ColumnRef(j.base, j.baseColumn)));
    OwnIsGood(false, " ", "ON");
    GivenIsGood(false, " ", j.alias);
    GivenIsGood(true, " ", j.table);
    var on := OnPieces(j);
    GoodCons(false, Own(" ", "ON"), on);
    GoodCons(false, Given(" ", j.alias), [Own(" ", "ON")] + on);
    GoodCons(true, Given(" ", j.table), [Given(" ", j.alias)] + ([Own(" ", "ON")] + on));
    assert [Given(" ", j.table)] + ([Given(" ", j.alias)] + ([Own(" ", "ON")] + on))
        == [Given(" ", j.table), Given(" ", j.alias), Own(" ", "ON")] + on;
  }

  lemma GoodJoinWords()
    ensures GoodPiece(true, Own(" ", "JOIN")) && GoodPiece(false, Own("\n", "JOIN"))
    ensures GoodPiece(false, Own("\n", "LEFT"))
    ensures IsKeywordPiece(Own(" ", "JOIN")) && IsKeywordPiece(Own("\n", "JOIN")) && IsKeywordPiece(Own("\n", "LEFT"))
  {
    hide GoodPiece;
    OwnIsGood(true, " ", "JOIN");
    OwnIsGood(false, "\n", "JOIN");
    OwnIsGood(false, "\n", "LEFT");
  }

  lemma GoodJoin(j: Join)
    requires !StartsNumber(j.alias)
    ensures GoodPieces(false, JoinPieces(j))
  {
    hide GoodPiece, GoodPieces, StartsNumber, OnPieces, IsKeywordPiece;
    GoodOn(j);
    GoodJoinWords();
    var rest := [Given(" ", j.table), Given(" ", j.alias), Own(" ", "ON")] + OnPieces(j);
    if j.kind.Left? {
      GoodCons(true, Own(" ", "JOIN"), rest);
      GoodCons(false, Own("\n", "LEFT"), [Own(" ", "JOIN")] + rest);
      assert JoinPieces(j) == [Own("\n", "LEFT")] + ([Own(" ", "JOIN")] + rest);
    } else {
      GoodCons(false, Own("\n", "JOIN"), rest);
    }
  }

  lemma {:induction false} GoodJoins(joins: seq<Join>)
    requires forall j :: j in joins ==> !StartsNumber(j.alias)
    ensures GoodPieces(false, JoinsPieces(joins))
  {
    hide GoodPieces, JoinPieces, StartsNumber;
    if joins == [] {
      NoPieces();
    } else {
      GoodJoin(joins[0]);
      GoodJoins(joins[1..]);
      GoodAppend(false, JoinPieces(joins[0]), JoinsPieces(joins[1..]));
    }
  }

  lemma {:induction false} GoodList(floats: Floats, ls: seq<Literal>)
    ensures GoodPieces(false, ListPieces(floats, ls))
  {
    hide GoodPieces, GoodPiece, PrintLiteral;
    if ls == [] {
      NoPieces();
    } else {
      GoodList(floats, ls[1..]);
      GivenIsGood(false, ", ", PrintLiteral(floats, ls[0]));
      GoodCons(false, Given(", ", PrintLiteral(floats, ls[0])), ListPieces(floats, ls[1..]));
    }
  }

  /** A connective, the column, and what is asked of it. */
  lemma GoodConnected(connective: string, col: ColumnRef, rest: seq<Piece>)
    requires connective in KEYWORDS && GoodPieces(false, rest)
    ensures GoodPieces(false, [Own("\n", connective)] + ColumnPieces(" ", col) + rest)
  {
    hide GoodPieces, GoodPiece, ColumnPieces;
    OwnIsGood(false, "\n", connective);
    GoodColumn(true, " ", col);
    GoodAppend(true, ColumnPieces(" ", col), rest);
    GoodCons(false, Own("\n", connective), ColumnPieces(" ", col) + rest);
    assert [Own("\n", connective)] + (ColumnPieces(" ", col) + rest)
      == [Own("\n", connective)] + ColumnPieces(" ", col) + rest;
  }

  lemma GoodDay(afterKeyword: bool, symbols: string, text: string, rest: seq<Piece>)
    requires symbols in MARKS && GoodPieces(false, rest)
    ensures GoodPieces(afterKeyword, [Own(symbols, "DATE"), Given(" '", text)] + rest)
  {
    hide GoodPieces, GoodPiece;
    OwnIsGood(afterKeyword, symbols, "DATE");
    GivenIsGood(true, " '", text);
    GoodTwo(afterKeyword, Own(symbols, "DATE"), Given(" '", text));
    GoodAppend(afterKeyword, [Own(symbols, "DATE"), Given(" '", text)], rest);
  }

  lemma GoodEnds()
    ensures GoodPieces(false, [Own("'", "")]) && GoodPieces(false, [Own(")", "")]) && GoodPieces(false, ONE_DAY)
    ensures GoodPieces(false, [Own(" ", "IN"), Own(" ()", "")])
  {
    hide GoodPieces, GoodPiece;
    OwnIsGood(false, "'", "");
    OwnIsGood(true, "'", "");
    OwnIsGood(false, ")", "");
    OwnIsGood(false, "' + ", "INTERVAL");
    GivenIsGood(true, " '", "1");
    OwnIsGood(false, " ", "day");
    OwnIsGood(false, " ", "IN");
    OwnIsGood(true, " ()", "");
    GoodOne(false, Own("'", ""));
    GoodOne(false, Own(")", ""));
    GoodTwo(false, Own(" ", "IN"), Own(" ()", ""));
    GoodThree(true, Given(" '", "1"), Own(" ", "day"), Own("'", ""));
    GoodCons(false, Own("' + ", "INTERVAL"), [Given(" '", "1"), Own(" ", "day"), Own("'", "")]);
    assert ONE_DAY == [Own("' + ", "INTERVAL")] + [Given(" '", "1"), Own(" ", "day"), Own("'", "")];
  }

  lemma GoodIn(floats: Floats, ls: seq<Literal>)
    requires ls != []
    ensures GoodPieces(false,
      [Own(" ", "IN"), Given(" (", PrintLiteral(floats, ls[0]))] + ListPieces(floats, ls[1..]) + [Own(")", "")])
  {
    hide GoodPieces, GoodPiece, PrintLiteral, ListPieces;
    var head, more := [Own(" ", "IN"), Given(" (", PrintLiteral(floats, ls[0]))], ListPieces(floats, ls[1..]);
    OwnIsGood(false, " ", "IN");
    GivenIsGood(true, " (", PrintLiteral(floats, ls[0]));
    GoodTwo(false, Own(" ", "IN"), Given(" (", PrintLiteral(floats, ls[0])));
    GoodList(floats, ls[1..]);
    GoodAppend(false, head, more);
    GoodEnds();
    GoodAppend(false, head + more, [Own(")", "")]);
  }

  lemma GoodBetween(lo: string, hi: string)
    ensures GoodPieces(false, [Own(" ", "BETWEEN"), Given(" ", lo), Own(" ", "AND"), Given(" ", hi)])
  {
    hide GoodPieces, GoodPiece;
    OwnIsGood(false, " ", "BETWEEN");
    GivenIsGood(true, " ", lo);
    OwnIsGood(false, " ", "AND");
    GivenIsGood(true, " ", hi);
    GoodTwo(false, Own(" ", "BETWEEN"), Given(" ", lo));
    GoodTwo(false, Own(" ", "AND"), Given(" ", hi));
    GoodAppend(false, [Own(" ", "BETWEEN"), Given(" ", lo)], [Own(" ", "AND"), Given(" ", hi)]);
    assert [Own(" ", "BETWEEN"), Given(" ", lo)] + [Own(" ", "AND"), Given(" ", hi)]
        == [Own(" ", "BETWEEN"), Given(" ", lo), Own(" ", "AND"), Given(" ", hi)];
  }

  lemma GoodSince(days: string)
    ensures GoodPieces(false,
      [Own(" >= ", "CURRENT_DATE"), Own(" - ", "INTERVAL"), Given(" '", days), Own(" ", "days"), Own("'", "")])
  {
    hide GoodPieces, GoodPiece;
    OwnIsGood(false, " >= ", "CURRENT_DATE");
    OwnIsGood(true, " - ", "INTERVAL");
    GivenIsGood(true, " '", days);
    OwnIsGood(false, " ", "days");
    OwnIsGood(true, "'", "");
    GoodThree(true, Given(" '", days), Own(" ", "days"), Own("'", ""));
    var rest := [Given(" '", days), Own(" ", "days"), Own("'", "")];
    GoodCons(true, Own(" - ", "INTERVAL"), rest);
    GoodCons(false, Own(" >= ", "CURRENT_DATE"), [Own(" - ", "INTERVAL")] + rest);
    assert [Own(" >= ", "CURRENT_DATE")] + ([Own(" - ", "INTERVAL")] + rest)
        == [Own(" >= ", "CURRENT_DATE"), Own(" - ", "INTERVAL"), Given(" '", days), Own(" ", "days"), Own("'", "")];
  }

  lemma GoodWithinDay(connective: string, col: ColumnRef, text: string)
    requires connective in KEYWORDS
    ensures GoodPieces(false, [Own("\n", connective), Own(" ", "DATE")] + ColumnPieces("(", col)
        + [Own(") = ", "DATE"), Given(" '", text), Own("'", "")])
  {
    hide GoodPieces, GoodPiece, ColumnPieces;
    OwnIsGood(false, "\n", connective);
    OwnIsGood(true, " ", "DATE");
    GoodTwo(false, Own("\n", connective), Own(" ", "DATE"));
    GoodColumn(false, "(", col);
    GoodEnds();
    GoodDay(false, ") = ", text, [Own("'", "")]);
    var head := [Own("\n", connective), Own(" ", "DATE")];
    var day := [Own(") = ", "DATE"), Given(" '", text)] + [Own("'", "")];
    GoodAppend(false, head, ColumnPieces("(", col));
    GoodAppend(false, head + ColumnPieces("(", col), day);
    assert day == [Own(") = ", "DATE"), Given(" '", text), Own("'", "")];
  }

  lemma GoodCondition(f: Formats, connective: string, c: Condition)
    requires connective in KEYWORDS
    ensures GoodPieces(false, ConditionPieces(f, connective, c))
  {
    hide GoodPieces, GoodPiece, ColumnPieces, PrintLiteral, ListPieces;
    GoodEnds();
    match c {
      case Equals(col, l) =>
        GivenIsGood(false, " = ", PrintLiteral(f.floats, l));
        GoodOne(false, Given(" = ", PrintLiteral(f.floats, l)));
        GoodConnected(connective, col, [Given(" = ", PrintLiteral(f.floats, l))]);
      case OneOf(col, ls) =>
        if ls == [] {
          GoodConnected(connective, col, [Own(" ", "IN"), Own(" ()", "")]);
        } else {
          GoodIn(f.floats, ls);
          GoodConnected(connective, col,
            [Own(" ", "IN"), Given(" (", PrintLiteral(f.floats, ls[0]))] + ListPieces(f.floats, ls[1..])
              + [Own(")", "")]);
        }
      case Between(col, lo, hi) =>
        GoodBetween(PrintLiteral(f.floats, lo), PrintLiteral(f.floats, hi));
        GoodConnected(connective, col, [Own(" ", "BETWEEN"), Given(" ", PrintLiteral(f.floats, lo)), Own(" ", "AND"),
          Given(" ", PrintLiteral(f.floats, hi))]);
      case SinceDaysAgo(col, days) =>
        GoodSince(PrintInt(days));
        GoodConnected(connective, col, [Own(" >= ", "CURRENT_DATE"), Own(" - ", "INTERVAL"),
          Given(" '", PrintInt(days)), Own(" ", "days"), Own("'", "")]);
      case OnOrAfter(col, day) =>
        GoodDay(false, " >= ", f.day(day), [Own("'", "")]);
        GoodConnected(connective, col, [Own(" >= ", "DATE"), Given(" '", f.day(day))] + [Own("'", "")]);
        assert [Own(" >= ", "DATE"), Given(" '", f.day(day))] + [Own("'", "")]
            == [Own(" >= ", "DATE"), Given(" '", f.day(day)), Own("'", "")];
      case BeforeEndOf(col, day) =>
        GoodDay(false, " < ", f.day(day), ONE_DAY);
        GoodConnected(connective, col, [Own(" < ", "DATE"), Given(" '", f.day(day))] + ONE_DAY);
        var before := [Own(" < ", "DATE"), Given(" '", f.day(day))] + ONE_DAY;
        assert [Own("\n", connective)] + ColumnPieces(" ", col) + before == ConditionPieces(f, connective, c);
      case WithinDay(col, day) => GoodWithinDay(connective, col, f.day(day));
    }
  }

  lemma {:induction false} GoodWhere(f: Formats, where: seq<Condition>)
    ensures GoodPieces(false, WherePieces(f, where))
  {
    hide GoodPieces, ConditionPieces;
    if where == [] {
      NoPieces();
    } else {
      var n := |where| - 1;
      GoodWhere(f, where[..n]);
      GoodCondition(f, if n == 0 then "WHERE" else "AND", where[n]);
      GoodAppend(false, WherePieces(f, where[..n]), ConditionPieces(f, if n == 0 then "WHERE" else "AND", where[n]));
    }
  }

  lemma {:induction false} GoodGroup(groupBy: seq<ColumnRef>)
    ensures GoodPieces(false, GroupPieces(groupBy))
  {
    hide GoodPieces, GoodPiece, ColumnPieces;
    if groupBy == [] {
      NoPieces();
    } else if |groupBy| == 1 {
      OwnIsGood(false, "\n", "GROUP");
      OwnIsGood(true, " ", "BY");
      GoodColumn(true, " ", groupBy[0]);
      GoodCons(true, Own(" ", "BY"), ColumnPieces(" ", groupBy[0]));
      GoodCons(false, Own("\n", "GROUP"), [Own(" ", "BY")] + ColumnPieces(" ", groupBy[0]));
      assert [Own("\n", "GROUP")] + ([Own(" ", "BY")] + ColumnPieces(" ", groupBy[0])) == GroupPieces(groupBy);
    } else {
      var n := |groupBy| - 1;
      GoodGroup(groupBy[..n]);
      GoodColumn(false, ", ", groupBy[n]);
      GoodAppend(false, GroupPieces(groupBy[..n]), ColumnPieces(", ", groupBy[n]));
    }
  }

  lemma GoodOrder(o: OrderBy)
    ensures GoodPieces(false, OrderPieces(o))
  {
    hide GoodPieces, GoodPiece;
    var direction := if o.ascending then "ASC" else "DESC";
    OwnIsGood(false, "\n", "ORDER");
    OwnIsGood(true, " ", "BY");
    GivenIsGood(true, " ", o.output);
    OwnIsGood(false, " ", direction);
    GoodThree(true, Own(" ", "BY"), Given(" ", o.output), Own(" ", direction));
    GoodCons(false, Own("\n", "ORDER"), [Own(" ", "BY"), Given(" ", o.output), Own(" ", direction)]);
    assert OrderPieces(o) == [Own("\n", "ORDER")] + [Own(" ", "BY"), Given(" ", o.output), Own(" ", direction)];
  }

  lemma GoodQuery(q: Query, f: Formats)
    requires AliasesAreNames(q)
    ensures GoodPieces(true, Pieces(q, f))
  {
    hide GoodPieces, SelectPieces, MetricPieces, FromPieces, JoinsPieces, WherePieces, GroupPieces;
    hide OrderPieces, StartsNumber;
    GoodSelect(q.select);
    GoodMetric(q);
    if q.select == [] {
      NothingSelected();
      assert SelectPieces(q.select) + MetricPieces(q) == MetricPieces(q);
    } else {
      GoodAppend(true, SelectPieces(q.select), MetricPieces(q));
    }
    var a := SelectPieces(q.select) + MetricPieces(q);
    GoodFrom(q);
    GoodAppend(true, a, FromPieces(q));
    GoodJoins(q.joins);
    GoodAppend(true, a + FromPieces(q), JoinsPieces(q.joins));
    GoodWhere(f, q.where);
    GoodAppend(true, a + FromPieces(q) + JoinsPieces(q.joins), WherePieces(f, q.where));
    GoodGroup(q.groupBy);
    GoodAppend(true, a + FromPieces(q) + JoinsPieces(q.joins) + WherePieces(f, q.where), GroupPieces(q.groupBy));
    GoodOrder(q.orderBy);
    GoodAppend(true, a + FromPieces(q) + JoinsPieces(q.joins) + WherePieces(f, q.where) + GroupPieces(q.groupBy),
      OrderPieces(q.orderBy));
  }

  lemma NothingSelected()
    ensures SelectPieces([]) == []
  {
  }

  // ---- What the guardrail sees of a compiled text ----

  lemma SomePieces(q: Query, f: Formats)
    ensures Pieces(q, f) != []
  {
  }

  /** Every text of the compiler's template is read-only and clean as it stands. It has a write
      word exactly when a key, an identifier, a literal or the metric's own SQL has one, and
      before its last clause it shows a LIMIT exactly when one of those does. */
  lemma TextShowsOnlyWhatIsGiven(q: Query, f: Formats)
    requires AliasesAreNames(q)
    ensures GoodPieces(true, Pieces(q, f)) && Pieces(q, f) != []
    ensures Trim(SqlOf(q, f)) == SqlOf(q, f) && ReadOnly(SqlOf(q, f))
    ensures HasWriteWord(SqlOf(q, f)) <==> GivenWriteWord(Pieces(q, f))
    ensures ExtractLimit(SqlBody(q, f)).Some? <==> GivenLimit(Pieces(q, f))
    ensures ExtractLimit(SqlOf(q, f)) == Some(ExtractLimit(SqlBody(q, f)).GetOr(q.limit))
  {
    hide GoodPieces, Pieces, HasWriteWord, ExtractLimit, StartsNumber, Trim, ReadOnly, TextAfter;
    hide GivenWriteWord, GivenLimit;
    hide Clausal;
    GoodQuery(q, f);
    SomePieces(q, f);
    PiecesShowOnlyWhatIsGiven(Pieces(q, f), '\n', q.limit);
  }

  lemma Among(p: Piece, a: seq<Piece>, b: seq<Piece>, rest: seq<Piece>)
    requires p in b
    ensures p in a + b && p in a + b + rest
  {
  }

  /** A key is one of the texts given. */
  lemma MetricKeyIsGiven(q: Query, f: Formats)
    ensures Given(" ", q.metricAlias) in Pieces(q, f)
  {
    hide SelectPieces, MetricPieces, FromPieces, JoinsPieces, WherePieces, GroupPieces, OrderPieces;
    NameInMetric(q);
    var rest :=
      FromPieces(q) + JoinsPieces(q.joins) + WherePieces(f, q.where) + GroupPieces(q.groupBy) + OrderPieces(q.orderBy);
    Among(Given(" ", q.metricAlias), SelectPieces(q.select), MetricPieces(q), rest);
    assert Pieces(q, f) == SelectPieces(q.select) + MetricPieces(q) + rest;
  }

  lemma NameInMetric(q: Query)
    ensures Given(" ", q.metricAlias) in MetricPieces(q)
  {
    hide MetricText;
    assert MetricPieces(q)[2] == Given(" ", q.metricAlias);
  }
}
