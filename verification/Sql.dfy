/** The fragment of SQL the compiler emits, as syntax and as a meaning over tables of rows. */
module Sql {
  import opened Wrappers
  import opened Literals
  import Calendar

  // ---- Data ----

  /** A day is its ordinal, a moment its microseconds on the calendar's time line. */
  datatype Value = Null | Number(r: real) | Text(s: string) | Day(ordinal: int) | Moment(micros: int)

  /** One row of a table; columns not listed are null. */
  type Record = map<string, Value>

  type Database = map<string, seq<Record>>

  function Rows(db: Database, table: string): seq<Record> {
    if table in db then db[table] else []
  }

  function Field(row: Record, column: string): Value {
    if column in row then row[column] else Null
  }

  function LiteralValue(l: Literal): Value {
    match l
    case IntegerLiteral(n) => Number(n as real)
    case NumericLiteral(r) => Number(r)
    case DateLiteral(date, _) => if Calendar.ValidDate(date) then Day(Calendar.Ordinal(date)) else Null
    case TimestampLiteral(date, t) =>
      if Calendar.ValidDate(date) then
        Moment(StartOfDay(Calendar.Ordinal(date)) + ((t.hour * 60 + t.minute) * 60 + t.second) * 1_000_000)
      else Null
    case TextLiteral(s) => Text(s)
  }

  /** Timestamps compare as their fields do, and a second after 23:59:59 it is midnight of the next
      day; a timestamp lies in the day its date names. */
  lemma TimestampsInOrder(a: Literal, b: Literal)
    requires a.TimestampLiteral? && Calendar.ValidDate(a.date) && ValidClock(a.time)
    requires b.TimestampLiteral? && Calendar.ValidDate(b.date) && ValidClock(b.time)
    ensures var later := Calendar.Before(a.date, b.date)
        || (a.date == b.date && (a.time.hour < b.time.hour || (a.time.hour == b.time.hour
            && (a.time.minute < b.time.minute || (a.time.minute == b.time.minute && a.time.second < b.time.second)))));
      !AtMost(LiteralValue(b), LiteralValue(a)) <==> later
    ensures a.time == Clock(23, 59, 59) ==>
      LiteralValue(a).micros + 1_000_000
        == LiteralValue(TimestampLiteral(Calendar.NextDay(a.date), Clock(0, 0, 0))).micros
    ensures LiteralValue(DateLiteral(a.date, "")) == Day(LiteralValue(a).micros / (24 * 60 * 60 * 1_000_000))
  {
    hide Calendar.Ordinal, Calendar.ValidDate, Calendar.NextDay;
    Calendar.OrdinalOrder(a.date, b.date);
    Calendar.OrdinalOrder(b.date, a.date);
    Calendar.NextDayIsNext(a.date);
  }

  function StartOfDay(ordinal: int): int { ordinal * Calendar.MICROS_PER_DAY }

  // ---- Order of values; nulls come last when ascending ----

  predicate TextAtMost(a: string, b: string)
    decreases |a|
  {
    a == "" || (b != "" && (a[0] < b[0] || (a[0] == b[0] && TextAtMost(a[1..], b[1..]))))
  }

  function Rank(v: Value): int {
    match v
    case Number(_) => 0
    case Text(_) => 1
    case Day(_) => 2
    case Moment(_) => 3
    case Null => 4
  }

  predicate AtMost(a: Value, b: Value) {
    match (a, b)
    case (Number(x), Number(y)) => x <= y
    case (Text(x), Text(y)) => TextAtMost(x, y)
    case (Day(x), Day(y)) => x <= y
    case (Moment(x), Moment(y)) => x <= y
    case _ => Rank(a) <= Rank(b)
  }

  lemma TextOrder(a: string, b: string, c: string)
    ensures TextAtMost(a, b) || TextAtMost(b, a)
    ensures TextAtMost(a, b) && TextAtMost(b, c) ==> TextAtMost(a, c)
    decreases |a|
  {
    if a != "" && b != "" {
      TextOrder(a[1..], b[1..], if c == "" then "" else c[1..]);
    }
  }

  lemma ValueOrder(a: Value, b: Value, c: Value)
    ensures AtMost(a, b) || AtMost(b, a)
    ensures AtMost(a, b) && AtMost(b, c) ==> AtMost(a, c)
  {
    if a.Text? && b.Text? {
      TextOrder(a.s, b.s, if c.Text? then c.s else "");
    }
  }

  /** The texts first differ at place k. */
  predicate DiffersAt(a: string, b: string, k: int) {
    0 <= k < |a| && k < |b| && a[k] != b[k] && forall j :: 0 <= j < k ==> a[j] == b[j]
  }

  lemma {:induction false} TextsInOrder(a: string, b: string)
    ensures a <= b ==> TextAtMost(a, b)
    ensures b < a ==> !TextAtMost(a, b)
    ensures forall k :: DiffersAt(a, b, k) ==> (TextAtMost(a, b) <==> a[k] < b[k])
    decreases |a|
  {
    if a != "" && b != "" && a[0] == b[0] {
      TextsInOrder(a[1..], b[1..]);
      assert a == [a[0]] + a[1..] && b == [b[0]] + b[1..];
      forall k | DiffersAt(a, b, k) ensures TextAtMost(a, b) <==> a[k] < b[k] {
        assert DiffersAt(a[1..], b[1..], k - 1);
      }
    }
  }

  /** Numbers, days and moments go by size, texts by the first character in which they differ, and
      nulls come after everything. */
  lemma ValuesCompare(a: Value, b: Value)
    ensures a.Number? && b.Number? ==> (AtMost(a, b) <==> a.r <= b.r)
    ensures a.Day? && b.Day? ==> (AtMost(a, b) <==> a.ordinal <= b.ordinal)
    ensures a.Moment? && b.Moment? ==> (AtMost(a, b) <==> a.micros <= b.micros)
    ensures a.Text? && b.Text? && a.s <= b.s ==> AtMost(a, b)
    ensures a.Text? && b.Text? && b.s < a.s ==> !AtMost(a, b)
    ensures a.Text? && b.Text? ==> forall k :: DiffersAt(a.s, b.s, k) ==> (AtMost(a, b) <==> a.s[k] < b.s[k])
    ensures AtMost(a, Null) && (AtMost(Null, a) ==> a == Null)
  {
    if a.Text? && b.Text? { TextsInOrder(a.s, b.s); }
  }

  // ---- Syntax ----

  datatype ColumnRef = ColumnRef(alias: string, column: string)

  datatype Condition =
    | Equals(col: ColumnRef, literal: Literal)
    | OneOf(col: ColumnRef, literals: seq<Literal>)
    | Between(col: ColumnRef, low: Literal, high: Literal)
    | SinceDaysAgo(col: ColumnRef, days: int)
    | OnOrAfter(col: ColumnRef, day: int)
    | BeforeEndOf(col: ColumnRef, day: int)
    | WithinDay(col: ColumnRef, day: int)

  datatype JoinKind = Inner | Left

  /** `JOIN table alias ON alias.key = base.baseColumn`. */
  datatype Join = Join(kind: JoinKind, table: string, alias: string, key: string, base: string, baseColumn: string)

  /** A piece of a metric's SQL: text, or a column C it reads. */
  datatype Part<C> = Verbatim(text: string) | Reference(col: C)

  /** A metric: its SQL, and any function of the cells it reads in each row of a group. */
  datatype Expression<!C> = Expression(parts: seq<Part<C>>, compute: seq<seq<Value>> -> Value)

  datatype OrderBy = OrderBy(output: string, ascending: bool)

  datatype Query = Query(
    select: seq<(ColumnRef, string)>,
    metric: Expression<ColumnRef>, metricAlias: string,
    source: string, base: string,
    joins: seq<Join>,
    where: seq<Condition>,
    groupBy: seq<ColumnRef>,
    orderBy: OrderBy,
    limit: nat)

  // ---- Meaning: rows of the FROM and WHERE clauses ----

  /** A joined row: one record for each alias. A left join without partner binds no columns. */
  type Env = map<string, Record>

  function Cell(env: Env, c: ColumnRef): Value {
    if c.alias in env then Field(env[c.alias], c.column) else Null
  }

  function Partners(rows: seq<Record>, key: string, v: Value): (r: seq<Record>)
    ensures forall x :: x in r ==> x in rows && Field(x, key) == v
  {
    if rows == [] then []
    else (if v != Null && Field(rows[0], key) == v then [rows[0]] else []) + Partners(rows[1..], key, v)
  }

  function Bind(env: Env, alias: string, rows: seq<Record>): seq<Env> {
    if rows == [] then [] else [env[alias := rows[0]]] + Bind(env, alias, rows[1..])
  }

  function JoinRow(db: Database, j: Join, env: Env): seq<Env> {
    var partners := Partners(Rows(db, j.table), j.key, Cell(env, ColumnRef(j.base, j.baseColumn)));
    if partners == [] && j.kind.Left? then [env[j.alias := map[]]] else Bind(env, j.alias, partners)
  }

  function JoinTable(db: Database, j: Join, envs: seq<Env>): seq<Env> {
    if envs == [] then [] else JoinRow(db, j, envs[0]) + JoinTable(db, j, envs[1..])
  }

  function JoinTables(db: Database, joins: seq<Join>, envs: seq<Env>): seq<Env> {
    if joins == [] then envs else JoinTables(db, joins[1..], JoinTable(db, joins[0], envs))
  }

  function Holds(c: Condition, env: Env, today: int): bool {
    var v := Cell(env, c.col);
    match c
    case Equals(_, l) => v != Null && v == LiteralValue(l)
    case OneOf(_, ls) => v != Null && exists i :: 0 <= i < |ls| && v == LiteralValue(ls[i])
    case Between(_, lo, hi) => v != Null && AtMost(LiteralValue(lo), v) && AtMost(v, LiteralValue(hi))
    case SinceDaysAgo(_, days) => v.Moment? && v.micros >= StartOfDay(today - days)
    case OnOrAfter(_, day) => v.Moment? && v.micros >= StartOfDay(day)
    case BeforeEndOf(_, day) => v.Moment? && v.micros < StartOfDay(day + 1)
    case WithinDay(_, day) => v.Moment? && v.micros / Calendar.MICROS_PER_DAY == day
  }

  function Where(conditions: seq<Condition>, envs: seq<Env>, today: int): seq<Env> {
    if envs == [] then []
    else
      (if forall c :: c in conditions ==> Holds(c, envs[0], today) then [envs[0]] else [])
        + Where(conditions, envs[1..], today)
  }

  function From(table: seq<Record>, base: string): seq<Env> {
    if table == [] then [] else [map[base := table[0]]] + From(table[1..], base)
  }

  function Selected(q: Query, db: Database, today: int): seq<Env> {
    Where(q.where, JoinTables(db, q.joins, From(Rows(db, q.source), q.base)), today)
  }

  // ---- Meaning: metrics ----

  function References<C>(parts: seq<Part<C>>): (r: seq<C>)
    ensures forall c :: c in r ==> Reference(c) in parts
  {
    if parts == [] then []
    else (if parts[0].Reference? then [parts[0].col] else []) + References(parts[1..])
  }

  /** The cells read, row by row. */
  function CellsRead<C, R>(cols: seq<C>, rows: seq<R>, get: (R, C) -> Value): seq<seq<Value>> {
    seq(|rows|, n requires 0 <= n < |rows| => seq(|cols|, k requires 0 <= k < |cols| => get(rows[n], cols[k])))
  }

  function Aggregated<C, R>(e: Expression<C>, rows: seq<R>, get: (R, C) -> Value): Value {
    e.compute(CellsRead(References(e.parts), rows, get))
  }

  // ---- Meaning: groups and the result ----

  datatype Output = Output(dimensions: seq<Value>, metric: Value)

  function Cells(env: Env, cols: seq<ColumnRef>): (r: seq<Value>)
    ensures |r| == |cols| && forall i :: 0 <= i < |cols| ==> r[i] == Cell(env, cols[i])
  {
    seq(|cols|, i requires 0 <= i < |cols| => Cell(env, cols[i]))
  }

  /** Each item where it first occurs. */
  function FirstOccurrences<T(==, !new)>(items: seq<T>): (r: seq<T>)
    ensures forall x :: x in r <==> x in items
    ensures forall i, j :: 0 <= i < j < |r| ==> r[i] != r[j]
  {
    if items == [] then []
    else
      var before, last := FirstOccurrences(items[..|items| - 1]), items[|items| - 1];
      if last in before then before else before + [last]
  }

  function Keys(envs: seq<Env>, cols: seq<ColumnRef>): seq<seq<Value>> {
    seq(|envs|, i requires 0 <= i < |envs| => Cells(envs[i], cols))
  }

  function GroupOf(envs: seq<Env>, cols: seq<ColumnRef>, key: seq<Value>): seq<Env> {
    if envs == [] then []
    else (if Cells(envs[0], cols) == key then [envs[0]] else []) + GroupOf(envs[1..], cols, key)
  }

  function SelectColumns(q: Query): seq<ColumnRef> {
    seq(|q.select|, i requires 0 <= i < |q.select| => q.select[i].0)
  }

  function GroupOutput(q: Query, group: seq<Env>): Output {
    Output(if group == [] then [] else Cells(group[0], SelectColumns(q)), Aggregated(q.metric, group, Cell))
  }

  /** The rows before ordering. Without GROUP BY there is exactly one, even over no rows. */
  function Outputs(q: Query, db: Database, today: int): seq<Output> {
    var envs := Selected(q, db, today);
    if q.groupBy == [] then [GroupOutput(q, envs)]
    else
      var keys := FirstOccurrences(Keys(envs, q.groupBy));
      seq(|keys|, i requires 0 <= i < |keys| => GroupOutput(q, GroupOf(envs, q.groupBy, keys[i])))
  }

  /** The output column a name in ORDER BY refers to: the first selected one of that name,
      else the metric. */
  function OrderIndex(select: seq<(ColumnRef, string)>, name: string): (i: nat)
    ensures i <= |select|
  {
    if select == [] || select[0].1 == name then 0 else OrderIndex(select[1..], name) + 1
  }

  function SortKey(o: Output, index: nat): Value {
    if index < |o.dimensions| then o.dimensions[index] else o.metric
  }

  predicate InOrder(a: Output, b: Output, index: nat, ascending: bool) {
    if ascending then AtMost(SortKey(a, index), SortKey(b, index))
    else AtMost(SortKey(b, index), SortKey(a, index))
  }

  ghost predicate SortedBy(outputs: seq<Output>, index: nat, ascending: bool) {
    forall i, j :: 0 <= i < j < |outputs| ==> InOrder(outputs[i], outputs[j], index, ascending)
  }

  /** `answer` lists the first `limit` of the rows in some order that sorts them. */
  ghost predicate TopOf(rows: seq<Output>, index: nat, ascending: bool, limit: nat, answer: seq<Output>) {
    exists sorted: seq<Output> ::
      && multiset(sorted) == multiset(rows)
      && SortedBy(sorted, index, ascending)
      && answer == sorted[..if |sorted| < limit then |sorted| else limit]
  }

  /** PostgreSQL may return `answer` for q: ties may come in any order. */
  ghost predicate Answers(q: Query, db: Database, today: int, answer: seq<Output>) {
    var index := OrderIndex(q.select, q.orderBy.output);
    TopOf(Outputs(q, db, today), index, q.orderBy.ascending, q.limit, answer)
  }

  // ---- Every query has an answer ----

  lemma OutputOrder(a: Output, b: Output, c: Output, index: nat, ascending: bool)
    ensures InOrder(a, b, index, ascending) || InOrder(b, a, index, ascending)
    ensures InOrder(a, b, index, ascending) && InOrder(b, c, index, ascending) ==> InOrder(a, c, index, ascending)
  {
    ValueOrder(SortKey(a, index), SortKey(b, index), SortKey(c, index));
    ValueOrder(SortKey(c, index), SortKey(b, index), SortKey(a, index));
  }

  function Insert(o: Output, sorted: seq<Output>, index: nat, ascending: bool): seq<Output> {
    if sorted == [] then [o]
    else if InOrder(o, sorted[0], index, ascending) then [o] + sorted
    else [sorted[0]] + Insert(o, sorted[1..], index, ascending)
  }

  lemma {:induction false} InsertKeeps(o: Output, sorted: seq<Output>, index: nat, ascending: bool)
    ensures multiset(Insert(o, sorted, index, ascending)) == multiset(sorted) + multiset{o}
  {
    hide InOrder;
    if sorted != [] {
      assert sorted == [sorted[0]] + sorted[1..];
      InsertKeeps(o, sorted[1..], index, ascending);
    }
  }

  lemma ConsSorted(head: Output, rest: seq<Output>, index: nat, ascending: bool)
    requires SortedBy(rest, index, ascending)
    requires forall o :: o in rest ==> InOrder(head, o, index, ascending)
    ensures SortedBy([head] + rest, index, ascending)
  {
  }

  lemma {:induction false} InsertSorts(o: Output, sorted: seq<Output>, index: nat, ascending: bool)
    requires SortedBy(sorted, index, ascending)
    ensures SortedBy(Insert(o, sorted, index, ascending), index, ascending)
  {
    hide InOrder;
    if sorted == [] { return; }
    var head, tail := sorted[0], sorted[1..];
    OutputOrder(o, head, head, index, ascending);
    if InOrder(o, head, index, ascending) {
      forall x | x in sorted ensures InOrder(o, x, index, ascending) {
        OutputOrder(o, head, x, index, ascending);
      }
      ConsSorted(o, sorted, index, ascending);
    } else {
      InsertSorts(o, tail, index, ascending);
      InsertKeeps(o, tail, index, ascending);
      var rest := Insert(o, tail, index, ascending);
      forall x | x in rest ensures InOrder(head, x, index, ascending) {
        assert x in multiset(rest);
        assert x == o || x in tail;
      }
      ConsSorted(head, rest, index, ascending);
    }
  }

  lemma {:induction false} SomeAnswer(rows: seq<Output>, index: nat, ascending: bool) returns (sorted: seq<Output>)
    ensures multiset(sorted) == multiset(rows) && SortedBy(sorted, index, ascending)
  {
    if rows == [] {
      sorted := [];
    } else {
      var rest := SomeAnswer(rows[1..], index, ascending);
      sorted := Insert(rows[0], rest, index, ascending);
      InsertSorts(rows[0], rest, index, ascending);
      InsertKeeps(rows[0], rest, index, ascending);
      assert rows == [rows[0]] + rows[1..];
    }
  }

  lemma EveryQueryHasAnAnswer(q: Query, db: Database, today: int)
    ensures exists answer :: Answers(q, db, today, answer)
  {
    var rows, index := Outputs(q, db, today), OrderIndex(q.select, q.orderBy.output);
    var sorted := SomeAnswer(rows, index, q.orderBy.ascending);
    var answer := sorted[..if |sorted| < q.limit then |sorted| else q.limit];
    assert TopOf(rows, index, q.orderBy.ascending, q.limit, answer);
    assert Answers(q, db, today, answer);
  }
}
