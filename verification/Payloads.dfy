/** What an answer shows of the rows it got: a headline figure with its change, a ranking, a
    series with its peak and low, a breakdown, a page of records, a report of all of these. */
module Payloads {
  import opened Wrappers
  import opened Literals
  import opened Sql
  import D = Distribution

  /** How Python reads a text as a float, and writes a value as a text. */
  datatype Texts = Texts(parse: string -> Option<real>, show: Value -> string)

  function NumberOf(t: Texts, v: Value): Option<real> {
    match v
    case Number(x) => Some(x)
    case Text(s) => t.parse(s)
    case _ => None
  }

  /** What Python counts as missing in `a or b`. */
  predicate Falsy(v: Value) { v == Null || v == Text("") || v == Number(0.0) }

  function Shown4(x: Option<real>): Option<real> {
    if x.None? then None else Some(D.RoundTo(x.value, 4))
  }

  /** What is shown of a number: nothing of none, else the nearest multiple of a ten-thousandth. */
  ghost predicate ShowsNearest(shown: Option<real>, exact: Option<real>) {
    && (shown.Some? <==> exact.Some?)
    && (shown.Some? ==>
          && -0.00005 <= shown.value - exact.value <= 0.00005
          && shown.value * 10000.0 == (shown.value * 10000.0).Floor as real)
  }

  lemma TenThousandths(n: int)
    ensures n as real / 10000.0 * 10000.0 == n as real == (n as real).Floor as real
  {
  }

  lemma FourPlacesShown(x: Option<real>)
    ensures ShowsNearest(Shown4(x), x)
  {
    if x.Some? {
      Nearest(x.value);
      assert D.Power10(4) == 10.0 * D.Power10(3) == 100.0 * D.Power10(2) == 1000.0 * D.Power10(1) == 10000.0;
      var scaled := x.value * 10000.0;
      var n := if scaled >= 0.0 then (scaled + 0.5).Floor else -((0.5 - scaled).Floor);
      assert x.value * D.Power10(4) == scaled;
      assert D.RoundTo(x.value, 4) == n as real / 10000.0;
      TenThousandths(n);
    }
  }

  // ---- The headline figure ----

  function FirstNonNull(rows: seq<Record>, key: string): (v: Value)
    ensures v != Null <==> exists k :: 0 <= k < |rows| && Field(rows[k], key) != Null
  {
    if rows == [] then Null
    else if Field(rows[0], key) != Null then Field(rows[0], key)
    else FirstNonNull(rows[1..], key)
  }

  datatype Change = Change(previous: real, delta: real, pct: Option<real>)

  datatype Headline = Headline(value: Value, change: Option<Change>)

  function ChangeOf(current: real, previous: real): Change {
    Change(D.RoundTo(previous, 4), D.RoundTo(current - previous, 4),
      if previous == 0.0 then None else Some(D.RoundTo((current - previous) / previous * 100.0, 2)))
  }

  function HeadlineOf(t: Texts, key: string, rows: seq<Record>, baseline: Option<seq<Record>>): Headline {
    var value := FirstNonNull(rows, key);
    if baseline.None? then Headline(value, None)
    else
      match (NumberOf(t, value), NumberOf(t, FirstNonNull(baseline.value, key)))
      case (Some(current), Some(previous)) => Headline(value, Some(ChangeOf(current, previous)))
      case _ => Headline(value, None)
  }

  lemma Nearest(x: real)
    ensures -0.00005 <= D.RoundTo(x, 4) - x <= 0.00005
    ensures D.RoundTo(x, 4) > 0.0 <==> x >= 0.00005
    ensures D.RoundTo(x, 4) < 0.0 <==> x <= -0.00005
  {
    assert D.Power10(4) == 10.0 * D.Power10(3) == 100.0 * D.Power10(2) == 1000.0 * D.Power10(1) == 10000.0;
  }

  lemma NearestPct(x: real)
    ensures D.RoundTo(x, 2) > 0.0 <==> x >= 0.005
    ensures D.RoundTo(x, 2) < 0.0 <==> x <= -0.005
  {
    assert D.Power10(2) == 10.0 * D.Power10(1) == 100.0;
  }

  lemma QuotientSign(a: real, b: real)
    requires b != 0.0
    ensures a / b * 100.0 >= 0.005 ==> (a > 0.0 <==> b > 0.0)
    ensures a / b * 100.0 <= -0.005 ==> (a > 0.0 <==> b < 0.0)
  {
    assert a == a / b * b;
  }

  predicate Opposite(c: Change)
    requires c.pct.Some?
  {
    (c.delta > 0.0 && c.pct.value < 0.0) || (c.delta < 0.0 && c.pct.value > 0.0)
  }

  /** Neither the change nor the percentage rounds to zero. */
  predicate BothShow(current: real, previous: real)
    requires previous != 0.0
  {
    var delta, growth := current - previous, (current - previous) / previous * 100.0;
    (delta >= 0.00005 || delta <= -0.00005) && (growth >= 0.005 || growth <= -0.005)
  }

  /** The baseline and the change shown add up to the figure, but for rounding. The percentage
      is missing exactly over a baseline of zero, and says the opposite of the change, a rise
      for a fall, exactly when the baseline is negative and neither of the two rounds to zero. */
  lemma ChangeAddsUp(current: real, previous: real)
    ensures var c := ChangeOf(current, previous);
      && -0.0001 <= c.previous + c.delta - current <= 0.0001
      && (c.pct.None? <==> previous == 0.0)
      && (c.pct.Some? ==> (Opposite(c) <==> previous < 0.0 && BothShow(current, previous)))
  {
    hide D.RoundTo;
    Nearest(previous);
    Nearest(current - previous);
    if previous != 0.0 {
      NearestPct((current - previous) / previous * 100.0);
      QuotientSign(current - previous, previous);
    }
  }

  /** From -10 to -5: a change of +5, shown as a fall by half. */
  lemma RiseShownAsFall()
    ensures ChangeOf(-5.0, -10.0) == Change(-10.0, 5.0, Some(-50.0))
  {
    assert D.Power10(4) == 10.0 * D.Power10(3) == 100.0 * D.Power10(2) == 1000.0 * D.Power10(1) == 10000.0;
    assert D.Power10(2) == 10.0 * D.Power10(1) == 100.0;
    assert (-5.0 - -10.0) / -10.0 * 100.0 == -50.0;
    assert (5000.0 + 0.5 - 0.5 * 1.0).Floor == 5000;
    assert (0.5 - -100000.0).Floor == 100000;
    assert (50000.0 + 0.5).Floor == 50000;
    assert (0.5 - -5000.0).Floor == 5000;
  }

  // ---- The ranking ----

  datatype RankedItem = RankedItem(rank: nat, name: string, value: Option<real>)

  datatype Ranking = Ranking(items: seq<RankedItem>, rows: seq<Record>)

  function Figure(t: Texts, key: string, row: Record): Option<real> { NumberOf(t, Field(row, key)) }

  /** What rows are ranked by; None is below every number. A zero counts as missing. */
  function RankKey(t: Texts, key: string, row: Record): Option<real> {
    var x := Figure(t, key, row);
    if x == Some(0.0) then None else x
  }

  predicate AtLeast(a: Option<real>, b: Option<real>) { b.None? || (a.Some? && a.value >= b.value) }

  /** Largest key first; equal keys keep their order. */
  function RankRows(t: Texts, key: string, rows: seq<Record>): seq<Record> {
    if rows == [] then [] else PlaceRow(t, key, rows[0], RankRows(t, key, rows[1..]))
  }

  function PlaceRow(t: Texts, key: string, row: Record, ranked: seq<Record>): seq<Record> {
    if ranked == [] || AtLeast(RankKey(t, key, row), RankKey(t, key, ranked[0])) then [row] + ranked
    else [ranked[0]] + PlaceRow(t, key, row, ranked[1..])
  }

  function RankingOf(t: Texts, name: string, key: string, rows: seq<Record>): Ranking {
    var ranked := RankRows(t, key, rows);
    Ranking(
      seq(|ranked|, k requires 0 <= k < |ranked| =>
        RankedItem(k + 1,
          if Falsy(Field(ranked[k], name)) then "Row " + PrintInt(k + 1) else t.show(Field(ranked[k], name)),
          Shown4(Figure(t, key, ranked[k])))),
      ranked)
  }

  ghost predicate RankedByKey(t: Texts, key: string, rows: seq<Record>) {
    forall i, j :: 0 <= i < j < |rows| ==> AtLeast(RankKey(t, key, rows[i]), RankKey(t, key, rows[j]))
  }

  lemma {:induction false} PlaceRowKeeps(t: Texts, key: string, row: Record, ranked: seq<Record>)
    ensures multiset(PlaceRow(t, key, row, ranked)) == multiset(ranked) + multiset{row}
  {
    hide RankKey, AtLeast;
    if ranked != [] {
      assert ranked == [ranked[0]] + ranked[1..];
      PlaceRowKeeps(t, key, row, ranked[1..]);
    }
  }

  lemma {:induction false} PlacedAmong(t: Texts, key: string, row: Record, ranked: seq<Record>)
    ensures forall x :: x in PlaceRow(t, key, row, ranked) ==> x == row || x in ranked
  {
    hide RankKey, AtLeast;
    if ranked != [] { PlacedAmong(t, key, row, ranked[1..]); }
  }

  lemma FirstRanks(t: Texts, key: string, row: Record, rest: seq<Record>)
    requires RankedByKey(t, key, rest)
    requires forall x :: x in rest ==> AtLeast(RankKey(t, key, row), RankKey(t, key, x))
    ensures RankedByKey(t, key, [row] + rest)
  {
    hide RankKey, AtLeast;
  }

  lemma RestRanks(t: Texts, key: string, ranked: seq<Record>)
    requires RankedByKey(t, key, ranked) && ranked != []
    ensures RankedByKey(t, key, ranked[1..])
    ensures forall x :: x in ranked[1..] ==> AtLeast(RankKey(t, key, ranked[0]), RankKey(t, key, x))
  {
    hide RankKey, AtLeast;
  }

  lemma {:induction false} PlaceRowRanks(t: Texts, key: string, row: Record, ranked: seq<Record>)
    requires RankedByKey(t, key, ranked)
    ensures RankedByKey(t, key, PlaceRow(t, key, row, ranked))
  {
    hide RankKey, RankedByKey;
    if ranked == [] {
      NothingRanked(t, key);
      FirstRanks(t, key, row, []);
    } else {
      RestRanks(t, key, ranked);
      if AtLeast(RankKey(t, key, row), RankKey(t, key, ranked[0])) {
        forall x | x in ranked ensures AtLeast(RankKey(t, key, row), RankKey(t, key, x)) {
          assert x == ranked[0] || x in ranked[1..];
        }
        FirstRanks(t, key, row, ranked);
      } else {
        PlaceRowRanks(t, key, row, ranked[1..]);
        PlacedAmong(t, key, row, ranked[1..]);
        FirstRanks(t, key, ranked[0], PlaceRow(t, key, row, ranked[1..]));
      }
    }
  }

  /** The ranking is the rows rearranged, by descending key. */
  lemma {:induction false} RankRowsRanks(t: Texts, key: string, rows: seq<Record>)
    ensures RankedByKey(t, key, RankRows(t, key, rows))
    ensures multiset(RankRows(t, key, rows)) == multiset(rows)
  {
    hide RankKey, RankedByKey, PlaceRow;
    if rows == [] {
      assert RankedByKey(t, key, []) by { NothingRanked(t, key); }
    } else {
      RankRowsRanks(t, key, rows[1..]);
      PlaceRowRanks(t, key, rows[0], RankRows(t, key, rows[1..]));
      PlaceRowKeeps(t, key, rows[0], RankRows(t, key, rows[1..]));
      assert rows == [rows[0]] + rows[1..];
    }
  }

  lemma NothingRanked(t: Texts, key: string)
    ensures RankedByKey(t, key, [])
  {
  }

  ghost predicate FiguresDescend(t: Texts, key: string, rows: seq<Record>) {
    forall i, j :: 0 <= i < j < |rows| && Figure(t, key, rows[i]).Some? && Figure(t, key, rows[j]).Some? ==>
      Figure(t, key, rows[i]).value >= Figure(t, key, rows[j]).value
  }

  predicate BothSigns(t: Texts, key: string, rows: seq<Record>) {
    && (exists row :: row in rows && Figure(t, key, row) == Some(0.0))
    && (exists row :: row in rows && Figure(t, key, row).Some? && Figure(t, key, row).value < 0.0)
  }

  lemma SameRowsSameSigns(t: Texts, key: string, a: seq<Record>, b: seq<Record>)
    requires forall row :: row in a <==> row in b
    ensures BothSigns(t, key, a) <==> BothSigns(t, key, b)
  {
    hide Figure;
  }

  lemma RankedDescendsIff(t: Texts, key: string, ranked: seq<Record>)
    requires RankedByKey(t, key, ranked)
    ensures FiguresDescend(t, key, ranked) <==> !BothSigns(t, key, ranked)
  {
    hide Figure;
    if BothSigns(t, key, ranked) {
      var z :| 0 <= z < |ranked| && Figure(t, key, ranked[z]) == Some(0.0);
      var l :| 0 <= l < |ranked| && Figure(t, key, ranked[l]).Some? && Figure(t, key, ranked[l]).value < 0.0;
      assert l < z;
    }
  }

  lemma SameElements<T(!new)>(a: seq<T>, b: seq<T>)
    requires multiset(a) == multiset(b)
    ensures |a| == |b| && forall x :: x in a <==> x in b
  {
    assert |a| == |multiset(a)| && |b| == |multiset(b)|;
    assert forall x :: x in a <==> x in multiset(a);
    assert forall x :: x in b <==> x in multiset(b);
  }

  /** How a value is shown as a label: a missing one, which a zero counts as, by a stand-in. */
  function LabelShown(t: Texts, v: Value, missing: string): string {
    if v.Null? || (v.Text? && |v.s| == 0) || (v.Number? && v.r == 0.0) then missing else t.show(v)
  }

  lemma FalsyIsMissing(t: Texts, v: Value, missing: string)
    ensures LabelShown(t, v, missing) == if Falsy(v) then missing else t.show(v)
  {
  }

  /** Each item of a ranking tells its place, and the category and the figure of its row. */
  lemma RankedItemTells(t: Texts, name: string, key: string, rows: seq<Record>, k: nat)
    requires k < |RankingOf(t, name, key, rows).items|
    ensures var r := RankingOf(t, name, key, rows);
      && |r.items| == |r.rows| && r.items[k].rank == k + 1
      && r.items[k].name == LabelShown(t, Field(r.rows[k], name), "Row " + PrintInt(k + 1))
      && ShowsNearest(r.items[k].value, NumberOf(t, Field(r.rows[k], key)))
  {
    hide RankRows, NumberOf, Shown4, ShowsNearest, Falsy, LabelShown;
    FalsyIsMissing(t, Field(RankRows(t, key, rows)[k], name), "Row " + PrintInt(k + 1));
    FourPlacesShown(Figure(t, key, RankRows(t, key, rows)[k]));
  }

  /** The ranking holds every row once; its figures descend exactly when the rows do not have both a
      zero and a negative figure. */
  lemma RankingDescendsIff(t: Texts, name: string, key: string, rows: seq<Record>)
    ensures var r := RankingOf(t, name, key, rows);
      && multiset(r.rows) == multiset(rows) && |r.items| == |rows|
      && (FiguresDescend(t, key, r.rows) <==> !BothSigns(t, key, rows))
  {
    hide RankRows, Shown4, Figure, FiguresDescend, BothSigns, RankedByKey;
    RankRowsRanks(t, key, rows);
    RankedDescendsIff(t, key, RankRows(t, key, rows));
    SameElements(RankRows(t, key, rows), rows);
    SameRowsSameSigns(t, key, RankRows(t, key, rows), rows);
  }

  const ZERO: Record := map["city" := Text("Almaty"), "profit" := Number(0.0)]
  const LOSS: Record := map["city" := Text("Astana"), "profit" := Number(-5.0)]

  /** A loss of 5 leads the ranking over a zero. */
  lemma LossLeadsZero(t: Texts)
    ensures RankingOf(t, "city", "profit", [ZERO, LOSS]).rows == [LOSS, ZERO]
  {
    assert RankRows(t, "profit", [LOSS]) == [LOSS] by { assert [LOSS][1..] == []; }
    assert [ZERO, LOSS][1..] == [LOSS];
    assert PlaceRow(t, "profit", ZERO, [LOSS])
      == [LOSS] + PlaceRow(t, "profit", ZERO, []) by { assert [LOSS][1..] == []; }
  }

  // ---- The series ----

  datatype Point = Point(name: string, value: Option<real>)

  datatype Series = Series(points: seq<Point>, peak: Option<Point>, low: Option<Point>)

  function PointsOf(t: Texts, time: string, key: string, rows: seq<Record>): seq<Point> {
    seq(|rows|, k requires 0 <= k < |rows| =>
      Point(if Falsy(Field(rows[k], time)) then "" else t.show(Field(rows[k], time)), Shown4(Figure(t, key, rows[k]))))
  }

  /** The first point with the largest value of those before `n`. */
  function PeakOf(points: seq<Point>, n: nat): (r: Option<nat>)
    requires n <= |points|
    ensures r.None? <==> forall k :: 0 <= k < n ==> points[k].value.None?
    ensures r.Some? ==>
      && r.value < n && points[r.value].value.Some?
      && forall k :: 0 <= k < n && points[k].value.Some? ==>
           && points[k].value.value <= points[r.value].value.value
           && (k < r.value ==> points[k].value.value < points[r.value].value.value)
  {
    if n == 0 then None
    else
      var before := PeakOf(points, n - 1);
      if points[n - 1].value.None? || (before.Some? && points[before.value].value.value >= points[n - 1].value.value)
      then before else Some(n - 1)
  }

  function LowOf(points: seq<Point>, n: nat): (r: Option<nat>)
    requires n <= |points|
    ensures r.None? <==> forall k :: 0 <= k < n ==> points[k].value.None?
    ensures r.Some? ==>
      && r.value < n && points[r.value].value.Some?
      && forall k :: 0 <= k < n && points[k].value.Some? ==>
           && points[k].value.value >= points[r.value].value.value
           && (k < r.value ==> points[k].value.value > points[r.value].value.value)
  {
    if n == 0 then None
    else
      var before := LowOf(points, n - 1);
      if points[n - 1].value.None? || (before.Some? && points[before.value].value.value <= points[n - 1].value.value)
      then before else Some(n - 1)
  }

  function At(points: seq<Point>, k: Option<nat>): Option<Point>
    requires k.Some? ==> k.value < |points|
  {
    if k.None? then None else Some(points[k.value])
  }

  function SeriesOf(t: Texts, time: string, key: string, rows: seq<Record>): Series {
    var points := PointsOf(t, time, key, rows);
    Series(points, At(points, PeakOf(points, |points|)), At(points, LowOf(points, |points|)))
  }

  /** Whether p is a point with the largest value, or with the smallest. */
  ghost predicate Highest(points: seq<Point>, p: Point) {
    p in points && p.value.Some? && forall x :: x in points && x.value.Some? ==> x.value.value <= p.value.value
  }

  ghost predicate Lowest(points: seq<Point>, p: Point) {
    p in points && p.value.Some? && forall x :: x in points && x.value.Some? ==> x.value.value >= p.value.value
  }

  lemma PointTells(t: Texts, time: string, key: string, rows: seq<Record>, k: nat)
    requires k < |rows|
    ensures var p := PointsOf(t, time, key, rows)[k];
      && p.name == LabelShown(t, Field(rows[k], time), "")
      && ShowsNearest(p.value, NumberOf(t, Field(rows[k], key)))
  {
    hide NumberOf, Shown4, ShowsNearest, Falsy, LabelShown;
    FalsyIsMissing(t, Field(rows[k], time), "");
    FourPlacesShown(Figure(t, key, rows[k]));
  }

  lemma PeakIsHighest(points: seq<Point>)
    ensures var peak, low := At(points, PeakOf(points, |points|)), At(points, LowOf(points, |points|));
      && (peak.None? <==> forall p :: p in points ==> p.value.None?) && (low.None? <==> peak.None?)
      && (peak.Some? ==> Highest(points, peak.value)) && (low.Some? ==> Lowest(points, low.value))
  {
    hide PeakOf, LowOf;
  }

  /** A series has a point for each row, in order, by its time and its figure; its peak and low are a
      highest and a lowest point, and missing only if no row has a figure. */
  lemma SeriesTells(t: Texts, time: string, key: string, rows: seq<Record>)
    ensures var r := SeriesOf(t, time, key, rows);
      && |r.points| == |rows|
      && (forall k :: 0 <= k < |rows| ==>
           && r.points[k].name == LabelShown(t, Field(rows[k], time), "")
           && ShowsNearest(r.points[k].value, NumberOf(t, Field(rows[k], key))))
      && (r.peak.None? <==> forall p :: p in r.points ==> p.value.None?) && (r.low.None? <==> r.peak.None?)
      && (r.peak.Some? ==> Highest(r.points, r.peak.value)) && (r.low.Some? ==> Lowest(r.points, r.low.value))
  {
    hide PeakOf, LowOf, NumberOf, Shown4, Highest, Lowest, LabelShown, ShowsNearest, At;
    forall k | 0 <= k < |rows|
      ensures PointsOf(t, time, key, rows)[k].name == LabelShown(t, Field(rows[k], time), "")
      ensures ShowsNearest(PointsOf(t, time, key, rows)[k].value, NumberOf(t, Field(rows[k], key)))
    {
      PointTells(t, time, key, rows, k);
    }
    PeakIsHighest(PointsOf(t, time, key, rows));
  }

  // ---- The breakdown ----

  const VISIBLE_ITEMS: nat := 6

  function CategoryRows(t: Texts, name: string, key: string, rows: seq<Record>): seq<D.Row> {
    seq(|rows|, k requires 0 <= k < |rows| =>
      D.Row(if Falsy(Field(rows[k], name)) then None else Some(t.show(Field(rows[k], name))), Figure(t, key, rows[k])))
  }

  function BreakdownOf(t: Texts, name: string, key: string, rows: seq<Record>): D.Breakdown {
    D.Distribute(CategoryRows(t, name, key, rows), VISIBLE_ITEMS)
  }

  function FiguresTotal(t: Texts, key: string, rows: seq<Record>): real {
    if rows == [] then 0.0
    else
      var x := NumberOf(t, Field(rows[|rows| - 1], key));
      FiguresTotal(t, key, rows[..|rows| - 1]) + (if x.Some? then x.value else 0.0)
  }

  /** A row's category is unknown if there is nothing to show for it. */
  function CategoryShown(t: Texts, row: Record, name: string): string {
    var shown := LabelShown(t, Field(row, name), "Unknown");
    if shown == "" then "Unknown" else shown
  }

  predicate TellsOf(t: Texts, name: string, key: string, row: Record, item: D.Item) {
    item.name == CategoryShown(t, row, name) && NumberOf(t, Field(row, key)) == Some(item.value)
  }

  lemma LastCategory(t: Texts, name: string, key: string, rows: seq<Record>)
    requires rows != []
    ensures var before, all := CategoryRows(t, name, key, rows[..|rows| - 1]), CategoryRows(t, name, key, rows);
      var x := NumberOf(t, Field(rows[|rows| - 1], key));
      D.ItemsOf(all) == D.ItemsOf(before)
        + if x.None? then [] else [D.Item(CategoryShown(t, rows[|rows| - 1], name), x.value)]
  {
    hide NumberOf, Falsy, LabelShown;
    var n, all := |rows| - 1, CategoryRows(t, name, key, rows);
    assert all[..n] == CategoryRows(t, name, key, rows[..n]);
    FalsyIsMissing(t, Field(rows[n], name), "Unknown");
    assert all[n] == D.Row(
      if Falsy(Field(rows[n], name)) then None else Some(t.show(Field(rows[n], name))), Figure(t, key, rows[n]));
    assert D.LabelOf(all[n]) == CategoryShown(t, rows[n], name);
    assert D.ItemsOf(all[..n]) + [] == D.ItemsOf(all[..n]);
  }

  lemma {:induction false} CategoryItems(t: Texts, name: string, key: string, rows: seq<Record>)
    ensures D.Total(D.ItemsOf(CategoryRows(t, name, key, rows))) == FiguresTotal(t, key, rows)
    ensures forall x :: x in D.ItemsOf(CategoryRows(t, name, key, rows)) ==>
      exists row :: row in rows && TellsOf(t, name, key, row, x)
  {
    hide NumberOf, CategoryRows, D.ItemsOf, CategoryShown;
    if rows == [] {
      NoCategories(t, name, key);
    } else {
      var init, last := rows[..|rows| - 1], rows[|rows| - 1];
      CategoryItems(t, name, key, init);
      LastCategory(t, name, key, rows);
      assert rows == init + [last];
      if NumberOf(t, Field(last, key)).Some? {
        var item := D.Item(CategoryShown(t, last, name), NumberOf(t, Field(last, key)).value);
        D.TotalAppend(D.ItemsOf(CategoryRows(t, name, key, init)), [item]);
        assert D.Total([item]) == item.value by { assert [item][1..] == []; }
        assert TellsOf(t, name, key, last, item);
      } else {
        D.TotalAppend(D.ItemsOf(CategoryRows(t, name, key, init)), []);
      }
    }
  }

  lemma NoCategories(t: Texts, name: string, key: string)
    ensures D.ItemsOf(CategoryRows(t, name, key, [])) == []
  {
  }

  /** A breakdown with a positive total is of the figures of all rows: they add up to its total, and
      each of its at most seven items is a row's category with its figure, or the rest. */
  lemma BreakdownTells(t: Texts, name: string, key: string, rows: seq<Record>)
    requires FiguresTotal(t, key, rows) > 0.0
    ensures var b := BreakdownOf(t, name, key, rows);
      && b.total == FiguresTotal(t, key, rows) && |b.items| <= 7
      && forall k :: 0 <= k < |b.items| - (if b.otherApplied then 1 else 0) ==>
           exists row :: row in rows && TellsOf(t, name, key, row, D.Item(b.items[k].name, b.items[k].value))
  {
    hide CategoryRows, D.Distribute, D.ItemsOf, D.Total, FiguresTotal, TellsOf;
    var categories, b := CategoryRows(t, name, key, rows), BreakdownOf(t, name, key, rows);
    CategoryItems(t, name, key, rows);
    D.NothingIsLost(categories, 6);
    D.LargestAreShown(categories, 6);
    var values := D.Values(b.items);
    var shown := if b.otherApplied then values[..|values| - 1] else values;
    forall k | 0 <= k < |shown|
      ensures exists row :: row in rows && TellsOf(t, name, key, row, D.Item(b.items[k].name, b.items[k].value))
    {
      assert shown[k] == D.Item(b.items[k].name, b.items[k].value) && shown[k] in multiset(shown);
      assert shown[k] in D.ItemsOf(categories);
    }
  }

  // ---- A page of records ----

  const TABLE_PAGE: nat := 25
  const REPORT_PAGE: nat := 8

  datatype Page = Page(rows: seq<Record>, hasMore: bool)

  function Prefix<T>(items: seq<T>, n: nat): seq<T> { if |items| <= n then items else items[..n] }

  function PageOf(rows: seq<Record>, size: nat): Page { Page(Prefix(rows, size), |rows| > size) }

  // ---- The report ----

  datatype Kpi =
    | HeadlineKpi(value: Value)
    | PreviousKpi(figure: real)
    | LeaderKpi(item: RankedItem)
    | PeakKpi(point: Point)

  datatype Section =
    | Summary
    | TrendSection(series: Series)
    | ComparisonSection(ranking: Ranking)
    | RecordSection(page: Page)

  datatype ReportContent = ReportContent(kpis: seq<Kpi>, sections: seq<Section>)

  const MAX_KPIS: nat := 4

  function HeadlineKpis(headline: Option<Headline>): (r: seq<Kpi>)
    ensures |r| <= 2
    ensures forall k :: k in r ==> headline.Some?
    ensures headline.Some? ==> forall k :: k in r <==>
      || k == HeadlineKpi(headline.value.value)
      || (headline.value.change.Some? && k == PreviousKpi(headline.value.change.value.previous))
  {
    if headline.None? then []
    else
      [HeadlineKpi(headline.value.value)]
        + if headline.value.change.None? then [] else [PreviousKpi(headline.value.change.value.previous)]
  }

  function LeaderKpis(ranking: Option<Ranking>): (r: seq<Kpi>)
    ensures |r| <= 1
    ensures forall k :: k in r <==> ranking.Some? && ranking.value.items != [] && k == LeaderKpi(ranking.value.items[0])
  {
    if ranking.None? || ranking.value.items == [] then [] else [LeaderKpi(ranking.value.items[0])]
  }

  function PeakKpis(series: Option<Series>): (r: seq<Kpi>)
    ensures |r| <= 1
    ensures forall k :: k in r <==> series.Some? && series.value.peak.Some? && k == PeakKpi(series.value.peak.value)
  {
    if series.None? || series.value.peak.None? then [] else [PeakKpi(series.value.peak.value)]
  }

  function Listed<A, B(!new)>(item: Option<A>, f: A -> B): (r: seq<B>)
    ensures forall y :: y in r <==> item.Some? && y == f(item.value)
  {
    if item.None? then [] else [f(item.value)]
  }

  function SectionsOf(series: Option<Series>, ranking: Option<Ranking>, page: Option<Page>): seq<Section> {
    [Summary] + Listed(series, x => TrendSection(x)) + Listed(ranking, x => ComparisonSection(x))
    + Listed(page, x => RecordSection(x))
  }

  function ReportOf(headline: Option<Headline>, series: Option<Series>, ranking: Option<Ranking>, page: Option<Page>)
    : ReportContent
  {
    ReportContent(
      Prefix(HeadlineKpis(headline) + LeaderKpis(ranking) + PeakKpis(series), MAX_KPIS),
      SectionsOf(series, ranking, page))
  }

  function SectionPlace(s: Section): nat {
    match s case Summary => 0 case TrendSection(_) => 1 case ComparisonSection(_) => 2 case RecordSection(_) => 3
  }

  function KpiPlace(k: Kpi): nat {
    match k case HeadlineKpi(_) => 0 case PreviousKpi(_) => 1 case LeaderKpi(_) => 2 case PeakKpi(_) => 3
  }

  /** Sections and key figures come in a fixed order, none twice. */
  lemma ReportInOrder(headline: Option<Headline>, series: Option<Series>, ranking: Option<Ranking>, page: Option<Page>)
    ensures var r := ReportOf(headline, series, ranking, page);
      && (forall i, j :: 0 <= i < j < |r.sections| ==> SectionPlace(r.sections[i]) < SectionPlace(r.sections[j]))
      && (forall i, j :: 0 <= i < j < |r.kpis| ==> KpiPlace(r.kpis[i]) < KpiPlace(r.kpis[j]))
  {
    SectionsInOrder(series, ranking, page);
  }

  lemma SectionsInOrder(series: Option<Series>, ranking: Option<Ranking>, page: Option<Page>)
    ensures var r := SectionsOf(series, ranking, page);
      forall i, j :: 0 <= i < j < |r| ==> SectionPlace(r[i]) < SectionPlace(r[j])
  {
  }

  /** A report shows exactly what it was given: no section or key figure is cut off or made up. */
  lemma ReportShowsAll(headline: Option<Headline>, series: Option<Series>, ranking: Option<Ranking>, page: Option<Page>)
    ensures forall s :: s in ReportOf(headline, series, ranking, page).sections <==>
      match s
      case Summary => true
      case TrendSection(x) => series == Some(x)
      case ComparisonSection(x) => ranking == Some(x)
      case RecordSection(x) => page == Some(x)
    ensures forall k :: k in ReportOf(headline, series, ranking, page).kpis <==>
      match k
      case HeadlineKpi(v) => headline.Some? && headline.value.value == v
      case PreviousKpi(x) => headline.Some? && headline.value.change.Some? && headline.value.change.value.previous == x
      case LeaderKpi(x) => ranking.Some? && ranking.value.items != [] && ranking.value.items[0] == x
      case PeakKpi(p) => series.Some? && series.value.peak == Some(p)
  {
    hide HeadlineKpis, LeaderKpis, PeakKpis, Listed;
    var a, b, c := HeadlineKpis(headline), LeaderKpis(ranking), PeakKpis(series);
    assert ReportOf(headline, series, ranking, page).kpis == a + b + c;
  }
}
