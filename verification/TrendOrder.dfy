/** In which order the periods of a trend come, and which of them. */
module TrendOrder {
  import opened Wrappers
  import opened Literals
  import opened Sql
  import opened Planner
  import opened CompilerCorrectness
  import opened AnswerPlan
  import opened AnswerMeaning
  import opened ServedRows
  import opened Payloads
  import AsciiText
  import V = SqlValidator

  // ---- Order of periods and of figures ----

  ghost predicate OneKey(rows: seq<Output>) { forall o :: o in rows ==> |o.dimensions| == 1 }

  ghost predicate InTime(answer: seq<Output>)
    requires OneKey(answer)
  {
    forall j, k :: 0 <= j < k < |answer| ==> AtMost(answer[j].dimensions[0], answer[k].dimensions[0])
  }

  predicate Later(a: Output, b: Output)
    requires |a.dimensions| == 1 && |b.dimensions| == 1
  {
    !AtMost(a.dimensions[0], b.dimensions[0])
  }

  predicate Below(a: Output, b: Output) { !AtMost(b.metric, a.metric) }

  predicate Tied(a: Output, b: Output) { AtMost(a.metric, b.metric) && AtMost(b.metric, a.metric) }

  /** The rows with a figure below that of b. */
  function RowsBelow(rows: seq<Output>, b: Output): (r: seq<Output>)
    ensures |r| <= |rows|
  {
    if rows == [] then []
    else
      var before, last := RowsBelow(rows[..|rows| - 1], b), rows[|rows| - 1];
      if Below(last, b) then before + [last] else before
  }

  function CountBelow(rows: seq<Output>, b: Output): nat { |RowsBelow(rows, b)| }

  /** Among the first n rows in ascending order of figures, a later period may come before an
      earlier one: by its smaller figure, or, the figures being equal, by chance. */
  predicate MayComeBefore(rows: seq<Output>, n: nat, a: Output, b: Output)
    requires |a.dimensions| == 1 && |b.dimensions| == 1
  {
    && Later(a, b)
    && if Below(a, b) then CountBelow(rows, b) < n else Tied(a, b) && CountBelow(rows, b) + 1 < n
  }

  ghost predicate NoneMayComeBefore(rows: seq<Output>, n: nat)
    requires OneKey(rows)
  {
    forall a, b :: a in rows && b in rows ==> !MayComeBefore(rows, n, a, b)
  }

  // ---- Counting ----

  lemma {:induction false} RowsBelowCounts(rows: seq<Output>, b: Output, x: Output)
    ensures multiset(RowsBelow(rows, b))[x] == if Below(x, b) then multiset(rows)[x] else 0
  {
    hide Below;
    if rows != [] {
      var init, last := rows[..|rows| - 1], rows[|rows| - 1];
      RowsBelowCounts(init, b, x);
      assert rows == init + [last];
    }
  }

  lemma CountIsOfRows(a: seq<Output>, rows: seq<Output>, b: Output)
    requires multiset(a) == multiset(rows)
    ensures CountBelow(a, b) == CountBelow(rows, b)
  {
    hide RowsBelow, Below;
    forall x ensures multiset(RowsBelow(a, b))[x] == multiset(RowsBelow(rows, b))[x] {
      RowsBelowCounts(a, b, x);
      RowsBelowCounts(rows, b, x);
    }
    assert multiset(RowsBelow(a, b)) == multiset(RowsBelow(rows, b));
    assert |RowsBelow(a, b)| == |multiset(RowsBelow(a, b))|;
    assert |RowsBelow(rows, b)| == |multiset(RowsBelow(rows, b))|;
  }

  lemma FigureOrder(a: Output, b: Output, c: Output)
    ensures AtMost(a.metric, b.metric) || AtMost(b.metric, a.metric)
    ensures AtMost(a.metric, b.metric) && Below(b, c) ==> Below(a, c)
    ensures AtMost(a.metric, b.metric) && AtMost(b.metric, c.metric) ==> AtMost(a.metric, c.metric)
  {
    ValueOrder(a.metric, b.metric, c.metric);
    ValueOrder(c.metric, a.metric, b.metric);
  }

  ghost predicate FiguresAscend(rows: seq<Output>) {
    forall j, k :: 0 <= j < k < |rows| ==> AtMost(rows[j].metric, rows[k].metric)
  }

  lemma SortedIsAscending(rows: seq<Output>)
    requires OneKey(rows)
    ensures SortedBy(rows, 1, true) <==> FiguresAscend(rows)
  {
    hide AtMost;
    if FiguresAscend(rows) {
      forall j, k | 0 <= j < k < |rows| ensures InOrder(rows[j], rows[k], 1, true) {
        assert rows[j] in rows && rows[k] in rows;
      }
    }
    if SortedBy(rows, 1, true) {
      forall j, k | 0 <= j < k < |rows| ensures AtMost(rows[j].metric, rows[k].metric) {
        assert InOrder(rows[j], rows[k], 1, true) && rows[j] in rows && rows[k] in rows;
      }
    }
  }

  /** In ascending order the rows below b are exactly the first ones. */
  lemma {:induction false} BelowComeFirst(sorted: seq<Output>, b: Output)
    requires FiguresAscend(sorted)
    ensures forall k :: 0 <= k < |sorted| ==> (Below(sorted[k], b) <==> k < CountBelow(sorted, b))
  {
    hide Below, AtMost;
    if sorted != [] {
      var init, last := sorted[..|sorted| - 1], sorted[|sorted| - 1];
      BelowComeFirst(init, b);
      if Below(last, b) {
        forall k | 0 <= k < |init| ensures Below(init[k], b) {
          assert init[k] == sorted[k];
          FigureOrder(sorted[k], last, b);
        }
        assert |init| > 0 ==> Below(init[|init| - 1], b);
        assert CountBelow(init, b) == |init|;
      }
      assert forall k :: 0 <= k < |init| ==> init[k] == sorted[k];
    }
  }

  // ---- Out of order only if a pair may be ----

  lemma DisorderHasPair(rows: seq<Output>, sorted: seq<Output>, n: nat, j: nat, k: nat)
    requires OneKey(rows) && OneKey(sorted) && multiset(sorted) == multiset(rows) && FiguresAscend(sorted)
    requires j < k < |sorted| && k < n && Later(sorted[j], sorted[k])
    ensures MayComeBefore(rows, n, sorted[j], sorted[k])
  {
    hide AtMost, Later, CountBelow;
    var a, b := sorted[j], sorted[k];
    CountIsOfRows(sorted, rows, b);
    BelowComeFirst(sorted, b);
    FigureOrder(b, b, b);
    assert CountBelow(sorted, b) <= k;
  }

  // ---- Any such pair can come out of order ----

  function Swapped<T>(items: seq<T>, j: nat, k: nat): (r: seq<T>)
    requires j <= k < |items|
    ensures |r| == |items| && multiset(r) == multiset(items)
  {
    items[j := items[k]][k := items[j]]
  }

  /** Rows that tie may be listed either way round. */
  lemma TiesMaySwap(sorted: seq<Output>, j: nat, k: nat)
    requires FiguresAscend(sorted) && j <= k < |sorted| && Tied(sorted[j], sorted[k])
    ensures FiguresAscend(Swapped(sorted, j, k))
  {
    hide AtMost;
    var swapped := Swapped(sorted, j, k);
    forall p | 0 <= p < |sorted|
      ensures AtMost(swapped[p].metric, sorted[p].metric) && AtMost(sorted[p].metric, swapped[p].metric)
    {
      FigureOrder(sorted[p], sorted[p], sorted[p]);
    }
    forall p, q | 0 <= p < q < |sorted| ensures AtMost(swapped[p].metric, swapped[q].metric) {
      FigureOrder(swapped[p], sorted[p], sorted[q]);
      FigureOrder(swapped[p], sorted[q], swapped[q]);
    }
  }

  lemma TiedFrom(sorted: seq<Output>, b: Output, p: nat, k: nat)
    requires FiguresAscend(sorted) && p <= k < |sorted| && Tied(sorted[k], b) && p >= CountBelow(sorted, b)
    ensures Tied(sorted[p], sorted[k]) && Tied(sorted[p], b)
  {
    hide AtMost, CountBelow;
    BelowComeFirst(sorted, b);
    FigureOrder(sorted[p], sorted[p], sorted[p]);
    FigureOrder(sorted[p], sorted[k], b);
    FigureOrder(sorted[k], b, sorted[p]);
  }

  /** A row can be listed right after those below it. */
  lemma ListedEarly(sorted: seq<Output>, b: Output) returns (r: seq<Output>)
    requires FiguresAscend(sorted) && b in sorted
    ensures multiset(r) == multiset(sorted) && FiguresAscend(r) && CountBelow(r, b) == CountBelow(sorted, b)
    ensures CountBelow(r, b) < |r| && r[CountBelow(r, b)] == b
  {
    hide AtMost, CountBelow, FiguresAscend;
    var k :| 0 <= k < |sorted| && sorted[k] == b;
    FigureOrder(b, b, b);
    BelowComeFirst(sorted, b);
    var c := CountBelow(sorted, b);
    TiedFrom(sorted, b, c, k);
    TiesMaySwap(sorted, c, k);
    r := Swapped(sorted, c, k);
    CountIsOfRows(r, sorted, b);
  }

  lemma LaterIsOther(a: Output, b: Output)
    requires |a.dimensions| == 1 && |b.dimensions| == 1 && Later(a, b)
    ensures a != b
  {
    ValueOrder(a.dimensions[0], a.dimensions[0], a.dimensions[0]);
  }

  lemma SameRows(a: seq<Output>, b: seq<Output>)
    requires multiset(a) == multiset(b)
    ensures |a| == |b| && forall o :: o in a <==> o in b
  {
    SameElements(a, b);
  }

  /** Of two rows that tie, one listed right after those below it, the other can be put before. */
  lemma TiePutBefore(sorted: seq<Output>, a: Output, b: Output, k: nat, j: nat) returns (r: seq<Output>)
    requires FiguresAscend(sorted) && k == CountBelow(sorted, b) && k < j < |sorted| && sorted[j] == a && sorted[k] == b
    requires Tied(a, b)
    ensures multiset(r) == multiset(sorted) && FiguresAscend(r) && |r| == |sorted| && r[k] == a && r[k + 1] == b
  {
    hide AtMost, CountBelow, FiguresAscend;
    TiedFrom(sorted, b, k + 1, j);
    TiesMaySwap(sorted, k + 1, j);
    var next := Swapped(sorted, k + 1, j);
    TiesMaySwap(next, k, k + 1);
    r := Swapped(next, k, k + 1);
  }

  /** Rows sorted so that a comes before b, both among the first n. */
  lemma PairComesBefore(rows: seq<Output>, n: nat, a: Output, b: Output) returns (sorted: seq<Output>, j: nat, k: nat)
    requires OneKey(rows) && a in rows && b in rows && MayComeBefore(rows, n, a, b)
    ensures multiset(sorted) == multiset(rows) && FiguresAscend(sorted)
    ensures j < k < |sorted| && k < n && sorted[j] == a && sorted[k] == b
  {
    hide AtMost, CountBelow, FiguresAscend, Later, Tied;
    LaterIsOther(a, b);
    var any := SomeAnswer(rows, 1, true);
    SameRows(any, rows);
    SortedIsAscending(any);
    sorted := ListedEarly(any, b);
    SameRows(sorted, any);
    CountIsOfRows(sorted, rows, b);
    BelowComeFirst(sorted, b);
    k := CountBelow(sorted, b);
    j :| 0 <= j < |sorted| && sorted[j] == a;
    if !Below(a, b) {
      sorted := TiePutBefore(sorted, a, b, k, j);
      j, k := k, k + 1;
    }
  }

  // ---- Every answer in time order ----

  /** For the rows of a query sorted by its figure: every answer of up to n rows is in time order
      exactly when no later period may come before an earlier one. */
  lemma AlwaysInTimeIff(rows: seq<Output>, n: nat)
    requires OneKey(rows)
    ensures (forall answer :: TopOf(rows, 1, true, n, answer) ==> OneKey(answer) && InTime(answer))
      <==> NoneMayComeBefore(rows, n)
  {
    hide MayComeBefore, AtMost, FiguresAscend, SortedBy;
    forall answer | TopOf(rows, 1, true, n, answer)
      ensures OneKey(answer) && (NoneMayComeBefore(rows, n) ==> InTime(answer))
    {
      var sorted: seq<Output> :| multiset(sorted) == multiset(rows) && SortedBy(sorted, 1, true)
        && answer == sorted[..if |sorted| < n then |sorted| else n];
      SameRows(sorted, rows);
      SortedIsAscending(sorted);
      forall j, k | 0 <= j < k < |answer| && Later(answer[j], answer[k]) ensures !NoneMayComeBefore(rows, n) {
        DisorderHasPair(rows, sorted, n, j, k);
        assert sorted[j] in rows && sorted[k] in rows;
      }
    }
    if a, b :| a in rows && b in rows && MayComeBefore(rows, n, a, b) {
      var sorted, j, k := PairComesBefore(rows, n, a, b);
      SameRows(sorted, rows);
      SortedIsAscending(sorted);
      var answer := sorted[..if |sorted| < n then |sorted| else n];
      assert TopOf(rows, 1, true, n, answer);
      assert answer[j] == a && answer[k] == b;
      PairIsLater(rows, n, a, b);
    }
  }

  lemma PairIsLater(rows: seq<Output>, n: nat, a: Output, b: Output)
    requires |a.dimensions| == 1 && |b.dimensions| == 1 && MayComeBefore(rows, n, a, b)
    ensures Later(a, b)
  {
  }

  // ---- The trend of a request ----

  lemma {:induction false} AddRowKeys(groups: seq<Group>, key: seq<Value>, fact: Record, n: nat)
    requires |key| == n && forall g :: g in groups ==> |g.key| == n
    ensures forall g :: g in AddRow(groups, key, fact) ==> |g.key| == n
  {
    if groups != [] { AddRowKeys(groups[1..], key, fact, n); }
  }

  lemma {:induction false} GroupKeys(q: Question, db: Database, facts: seq<Record>)
    ensures forall g :: g in Grouped(q, db, facts) ==> |g.key| == |q.dimensions|
  {
    hide AddRow;
    if facts != [] {
      var init, last := facts[..|facts| - 1], facts[|facts| - 1];
      GroupKeys(q, db, init);
      AddRowKeys(Grouped(q, db, init), KeyOf(q, db, last), last, |q.dimensions|);
    }
  }

  function TrendRequest(i: Interpretation, time: string, limit: int): Interpretation { Shaped(i, [time], limit, "asc") }

  /** A trend is sorted by its time key only if that is "day", and else by its figure. */
  lemma TrendReturns(i: Interpretation, time: string, limit: int, s: Platform, db: Database, n: nat,
    answer: seq<Output>)
    requires FanOutFree(TrendRequest(i, time, limit), s.catalog, s.floats, db)
    ensures s.catalog.Built() && Governed(TrendRequest(i, time, limit), s.catalog, s.floats)
    ensures OneKey(GroupsAsked(TrendRequest(i, time, limit), s, db))
    ensures MayReturn(TrendRequest(i, time, limit), s, db, n, answer) <==>
      TopOf(GroupsAsked(TrendRequest(i, time, limit), s, db), if time == DAY then 0 else 1, true, n, answer)
  {
    hide PlanFor, DimensionKeysUnique, TopOf, MetricValue, Grouped, Governed, Facts, MayReturn;
    var request := TrendRequest(i, time, limit);
    ReturnMeans(request, s, db, n, answer);
    LowerDirections();
    var q := Asked(request, s.catalog, s.floats);
    assert |q.dimensions| == 1;
    GroupKeys(q, db, Facts(q, s.floats, db, s.today, Rows(db, q.grain.source)));
    assert SortColumn(request.dimensions) == (if time == DAY then 0 else 1) by { assert [time][1..] == []; }
    assert Ascending(request);
  }

  /** Whatever the database returns of the trend, up to n rows, is in the order of its time key. */
  ghost predicate AlwaysInTime(i: Interpretation, s: Platform, db: Database, n: nat) {
    forall answer :: MayReturn(i, s, db, n, answer) ==> OneKey(answer) && InTime(answer)
  }

  lemma SortedIsInTime(sorted: seq<Output>)
    requires OneKey(sorted) && SortedBy(sorted, 0, true)
    ensures InTime(sorted)
  {
    hide AtMost;
    forall j, k | 0 <= j < k < |sorted| ensures AtMost(sorted[j].dimensions[0], sorted[k].dimensions[0]) {
      assert InOrder(sorted[j], sorted[k], 0, true) && sorted[j] in sorted && sorted[k] in sorted;
    }
  }

  lemma RestOfRows<T>(items: seq<T>, n: nat)
    requires n <= |items|
    ensures multiset(items) - multiset(items[..n]) == multiset(items[n..])
  {
    assert items == items[..n] + items[n..];
  }

  lemma HeadInTime(sorted: seq<Output>, n: nat)
    requires OneKey(sorted) && InTime(sorted) && n <= |sorted|
    ensures OneKey(sorted[..n]) && InTime(sorted[..n])
  {
    hide AtMost;
    forall j, k | 0 <= j < k < n ensures AtMost(sorted[..n][j].dimensions[0], sorted[..n][k].dimensions[0]) {
      assert sorted[..n][j] == sorted[j] && sorted[..n][k] == sorted[k];
    }
  }

  lemma HeadBeforeRest(sorted: seq<Output>, n: nat, x: Output, y: Output)
    requires OneKey(sorted) && InTime(sorted) && n <= |sorted| && x in sorted[..n] && y in sorted[n..]
    ensures |x.dimensions| == 1 && |y.dimensions| == 1 && AtMost(x.dimensions[0], y.dimensions[0])
  {
    hide AtMost;
    var j :| 0 <= j < n && sorted[j] == x;
    var k :| n <= k < |sorted| && sorted[k] == y;
  }

  lemma FirstKeysSorted(rows: seq<Output>, n: nat, answer: seq<Output>)
    requires OneKey(rows) && TopOf(rows, 0, true, n, answer)
    ensures OneKey(answer) && InTime(answer)
    ensures |answer| == if |rows| < n then |rows| else n
    ensures forall x, y :: x in answer && y in multiset(rows) - multiset(answer) ==>
      |y.dimensions| == 1 && AtMost(x.dimensions[0], y.dimensions[0])
  {
    hide AtMost, SortedBy, InTime;
    var sorted: seq<Output> :| multiset(sorted) == multiset(rows) && SortedBy(sorted, 0, true)
      && answer == sorted[..if |sorted| < n then |sorted| else n];
    SameRows(sorted, rows);
    SortedIsInTime(sorted);
    HeadInTime(sorted, |answer|);
    RestOfRows(sorted, |answer|);
    forall x, y | x in answer && y in multiset(rows) - multiset(answer)
      ensures |y.dimensions| == 1 && AtMost(x.dimensions[0], y.dimensions[0])
    {
      assert y in multiset(sorted[|answer|..]);
      HeadBeforeRest(sorted, |answer|, x, y);
    }
  }

  /** A trend by day shows the earliest days, in order, and leaves out the latest. */
  lemma DaysFromTheEarliest(i: Interpretation, limit: int, s: Platform, db: Database, n: nat, answer: seq<Output>)
    requires FanOutFree(TrendRequest(i, DAY, limit), s.catalog, s.floats, db)
    requires MayReturn(TrendRequest(i, DAY, limit), s, db, n, answer)
    ensures s.catalog.Built() && Governed(TrendRequest(i, DAY, limit), s.catalog, s.floats)
    ensures OneKey(answer) && InTime(answer)
    ensures var groups := GroupsAsked(TrendRequest(i, DAY, limit), s, db);
      && |answer| == (if |groups| < n then |groups| else n)
      && forall x, y :: x in answer && y in multiset(groups) - multiset(answer) ==>
           |y.dimensions| == 1 && AtMost(x.dimensions[0], y.dimensions[0])
  {
    hide FanOutFree, TopOf, MayReturn, GroupsAsked, Governed;
    TrendReturns(i, DAY, limit, s, db, n, answer);
    FirstKeysSorted(GroupsAsked(TrendRequest(i, DAY, limit), s, db), n, answer);
  }

  /** A trend is sure to come in time order exactly when its time key is "day", or no two of its
      groups may come out of order: a later one with the smaller figure, or with an equal one,
      both among the first n by figure. */
  lemma TrendInTimeIff(i: Interpretation, time: string, limit: int, s: Platform, db: Database, n: nat)
    requires FanOutFree(TrendRequest(i, time, limit), s.catalog, s.floats, db)
    ensures s.catalog.Built() && Governed(TrendRequest(i, time, limit), s.catalog, s.floats)
    ensures var groups := GroupsAsked(TrendRequest(i, time, limit), s, db);
      OneKey(groups) &&
        (AlwaysInTime(TrendRequest(i, time, limit), s, db, n) <==> time == DAY || NoneMayComeBefore(groups, n))
  {
    hide FanOutFree, TopOf, MayReturn, GroupsAsked, Governed, OneKey, InTime, NoneMayComeBefore;
    var request := TrendRequest(i, time, limit);
    forall answer: seq<Output>
      ensures s.catalog.Built() && Governed(request, s.catalog, s.floats) && OneKey(GroupsAsked(request, s, db))
      ensures MayReturn(request, s, db, n, answer) <==>
        TopOf(GroupsAsked(request, s, db), if time == DAY then 0 else 1, true, n, answer)
    {
      TrendReturns(i, time, limit, s, db, n, answer);
    }
    TrendReturns(i, time, limit, s, db, n, []);
    if time == DAY {
      forall answer | MayReturn(request, s, db, n, answer) ensures OneKey(answer) && InTime(answer) {
        FirstKeysSorted(GroupsAsked(request, s, db), n, answer);
      }
    } else {
      AlwaysInTimeIff(GroupsAsked(request, s, db), n);
    }
  }

  /** What the executor serves of a trend that runs with a LIMIT and is cut to a row limit. */
  ghost predicate ServedInTime(i: Interpretation, s: Platform, db: Database, f: Final) {
    forall answer :: MayReturn(i, s, db, f.limit, answer) ==>
      OneKey(Prefix(answer, f.rowLimit)) && InTime(Prefix(answer, f.rowLimit))
  }

  /** The same for the rows served once the guardrail has passed the text of the trend: n is then
      the least of its own limit, the policies' and the global one, or what a literal that looks
      like a LIMIT clause makes of them. */
  lemma PassedTrendInTimeIff(i: Interpretation, time: string, limit: int, s: Platform, db: Database, v: V.Settings,
    w: V.World,
    body: string, sep: char, n: nat, columns: seq<V.ColumnUse>) returns (t: V.Tree)
    requires FanOutFree(TrendRequest(i, time, limit), s.catalog, s.floats, db)
    requires body != "" && !AsciiText.IsSpace(body[0]) && AsciiText.IsSpace(sep)
    requires V.Validate(v, w, Clausal(body, sep, n), Some(columns)).Passed?
    ensures s.catalog.Built() && Governed(TrendRequest(i, time, limit), s.catalog, s.floats)
    ensures w.parse(Clausal(body, sep, n)) == Some([t]) && forall r :: r in t.tables ==> r.id in w.policies
    ensures var cap := V.RowCap(v, w.policies, t.tables);
      var f, passed := FinalOf(body, n, cap), V.Validate(v, w, Clausal(body, sep, n), Some(columns)).validated;
      var groups := GroupsAsked(TrendRequest(i, time, limit), s, db);
      && passed.sql == Clausal(f.body, sep, f.limit) && passed.rowLimit == f.rowLimit
      && OneKey(groups)
      && var safe := time == DAY || NoneMayComeBefore(groups, ServedLimit(body, n, cap));
      ServedInTime(TrendRequest(i, time, limit), s, db, f) <==> safe
  {
    hide FanOutFree, MayReturn, GroupsAsked, Governed, OneKey, InTime, NoneMayComeBefore, V.Validate;
    hide V.RowCap, FinalOf, Clausal;
    hide Prefix;
    t := PassedIsFinal(v, w, body, sep, n, Some(columns));
    var cap, request := V.RowCap(v, w.policies, t.tables), TrendRequest(i, time, limit);
    var f := FinalOf(body, n, cap);
    TrendInTimeIff(i, time, limit, s, db, ServedLimit(body, n, cap));
    forall served: seq<Output>
      ensures (exists answer :: MayReturn(request, s, db, f.limit, answer) && served == Prefix(answer, f.rowLimit))
        <==> MayReturn(request, s, db, ServedLimit(body, n, cap), served)
    {
      ServedIsReturned(request, s, db, f.limit, f.rowLimit, served);
    }
  }
}
