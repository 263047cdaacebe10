/** The distribution of a metric over categories: the largest ones, the rest as "Other", and
    percentages rounded for display. */
module Distribution {
  import opened Wrappers

  /** A result row: its category and its value, either of which may be missing. */
  datatype Row = Row(category: Option<string>, value: Option<real>)

  datatype Item = Item(name: string, value: real)

  datatype Share = Share(rank: nat, name: string, value: real, pct: Option<real>, isOther: bool)

  datatype Breakdown = Breakdown(items: seq<Share>, total: real, otherApplied: bool)

  const UNKNOWN := "Unknown"
  const OTHER := "Other"

  function LabelOf(row: Row): string {
    if row.category.None? || row.category.value == "" then UNKNOWN else row.category.value
  }

  /** The rows that have a value. */
  function ItemsOf(rows: seq<Row>): seq<Item> {
    if rows == [] then []
    else
      var before, last := ItemsOf(rows[..|rows| - 1]), rows[|rows| - 1];
      if last.value.None? then before else before + [Item(LabelOf(last), last.value.value)]
  }

  function Total(items: seq<Item>): real {
    if items == [] then 0.0 else items[0].value + Total(items[1..])
  }

  /** Largest first; equal values keep their order. */
  function Ranked(items: seq<Item>): seq<Item> {
    if items == [] then [] else Place(items[0], Ranked(items[1..]))
  }

  function Place(x: Item, ranked: seq<Item>): seq<Item> {
    if ranked == [] || x.value >= ranked[0].value then [x] + ranked else [ranked[0]] + Place(x, ranked[1..])
  }

  function Power10(digits: nat): (r: real)
    ensures r >= 1.0
  {
    if digits == 0 then 1.0 else 10.0 * Power10(digits - 1)
  }

  /** To the nearest, halves away from zero. */
  function RoundTo(x: real, digits: nat): real {
    var scaled := x * Power10(digits);
    (if scaled >= 0.0 then (scaled + 0.5).Floor else -((0.5 - scaled).Floor)) as real / Power10(digits)
  }

  function Pct(value: real, total: real): real
    requires total > 0.0
  {
    RoundTo(value / total * 100.0, 2)
  }

  function WithoutShares(items: seq<Item>): seq<Share> {
    seq(|items|, i requires 0 <= i < |items| => Share(i + 1, items[i].name, items[i].value, None, false))
  }

  function WithShares(items: seq<Item>, total: real): seq<Share>
    requires total > 0.0
  {
    seq(|items|, i requires 0 <= i < |items| =>
      Share(i + 1, items[i].name, items[i].value, Some(Pct(items[i].value, total)), items[i].name == OTHER))
  }

  function Head(items: seq<Item>, limit: nat): seq<Item> { if |items| <= limit then items else items[..limit] }

  function Tail(items: seq<Item>, limit: nat): seq<Item> { if |items| <= limit then [] else items[limit..] }

  /** The categories shown, with those left out summed up. */
  function Visible(ranked: seq<Item>, limit: nat): seq<Item> {
    var tail := Tail(ranked, limit);
    Head(ranked, limit) + (if tail == [] then [] else [Item(OTHER, Total(tail))])
  }

  function Distribute(rows: seq<Row>, limit: nat): Breakdown {
    var ranked := Ranked(ItemsOf(rows));
    var total := Total(ranked);
    if total <= 0.0 then Breakdown(WithoutShares(Head(ranked, limit)), 0.0, false)
    else Breakdown(WithShares(Visible(ranked, limit), total), total, Tail(ranked, limit) != [])
  }

  method DistributionItems(rows: seq<Row>, limit: nat) returns (r: Breakdown)
    ensures r == Distribute(rows, limit)
  {
    hide Ranked, WithShares, WithoutShares, Total;
    var items: seq<Item> := [];
    for n := 0 to |rows|
      invariant items == ItemsOf(rows[..n])
    {
      assert rows[..n + 1][..n] == rows[..n];
      var name := LabelOf(rows[n]);
      if rows[n].value.None? { continue; }
      items := items + [Item(name, rows[n].value.value)];
    }
    assert rows[..|rows|] == rows;
    items := Ranked(items);
    var total := Total(items);
    if total <= 0.0 {
      return Breakdown(WithoutShares(Head(items, limit)), 0.0, false);
    }
    var visible, tail := Head(items, limit), Tail(items, limit);
    var otherApplied := tail != [];
    if otherApplied { visible := visible + [Item(OTHER, Total(tail))]; } else { assert visible == visible + []; }
    return Breakdown(WithShares(visible, total), total, otherApplied);
  }

  // ---- Ranking ----

  ghost predicate Descending(items: seq<Item>) {
    forall i, j :: 0 <= i < j < |items| ==> items[i].value >= items[j].value
  }

  lemma DescendingCons(x: Item, rest: seq<Item>)
    requires Descending(rest) && forall y :: y in rest ==> x.value >= y.value
    ensures Descending([x] + rest)
  {
  }

  lemma {:induction false} PlaceKeeps(x: Item, ranked: seq<Item>)
    ensures multiset(Place(x, ranked)) == multiset(ranked) + multiset{x}
    ensures forall y :: y in Place(x, ranked) ==> y == x || y in ranked
  {
    if ranked != [] && x.value < ranked[0].value {
      PlaceKeeps(x, ranked[1..]);
      assert ranked == [ranked[0]] + ranked[1..];
    }
  }

  lemma {:induction false} PlaceAdds(x: Item, ranked: seq<Item>)
    ensures Total(Place(x, ranked)) == x.value + Total(ranked)
  {
    if ranked == [] || x.value >= ranked[0].value {
      assert ([x] + ranked)[1..] == ranked;
    } else {
      PlaceAdds(x, ranked[1..]);
      assert ([ranked[0]] + Place(x, ranked[1..]))[1..] == Place(x, ranked[1..]);
    }
  }

  lemma {:induction false} PlaceRanks(x: Item, ranked: seq<Item>)
    requires Descending(ranked)
    ensures Descending(Place(x, ranked))
  {
    if ranked == [] {
    } else if x.value >= ranked[0].value {
      forall y | y in ranked ensures x.value >= y.value { }
      DescendingCons(x, ranked);
    } else {
      PlaceRanks(x, ranked[1..]);
      PlaceKeeps(x, ranked[1..]);
      forall y | y in Place(x, ranked[1..]) ensures ranked[0].value >= y.value { assert y == x || y in ranked[1..]; }
      DescendingCons(ranked[0], Place(x, ranked[1..]));
    }
  }

  lemma NothingDescends()
    ensures Descending([])
  {
  }

  lemma {:induction false} RankedIsDescending(items: seq<Item>)
    ensures Descending(Ranked(items)) && multiset(Ranked(items)) == multiset(items)
    ensures Total(Ranked(items)) == Total(items)
  {
    hide Descending, Place;
    if items == [] {
      NothingDescends();
    } else {
      RankedIsDescending(items[1..]);
      PlaceRanks(items[0], Ranked(items[1..]));
      PlaceKeeps(items[0], Ranked(items[1..]));
      PlaceAdds(items[0], Ranked(items[1..]));
      assert items == [items[0]] + items[1..];
    }
  }

  function OfValue(items: seq<Item>, v: real): seq<Item> {
    if items == [] then []
    else (if items[0].value == v then [items[0]] else []) + OfValue(items[1..], v)
  }

  /** A row with this value, by its category; a missing or empty one is unknown. */
  function RowOfValue(row: Row, v: real): seq<Item> {
    if row.value != Some(v) then []
    else [Item(if row.category.None? || row.category.value == "" then "Unknown" else row.category.value, v)]
  }

  function RowsOfValue(rows: seq<Row>, v: real): seq<Item> {
    if rows == [] then [] else RowOfValue(rows[0], v) + RowsOfValue(rows[1..], v)
  }

  lemma {:induction false} OfValueAppend(a: seq<Item>, b: seq<Item>, v: real)
    ensures OfValue(a + b, v) == OfValue(a, v) + OfValue(b, v)
  {
    if a == [] {
      assert a + b == b;
    } else {
      assert (a + b)[1..] == a[1..] + b;
      OfValueAppend(a[1..], b, v);
    }
  }

  lemma {:induction false} RowsOfValueAppend(a: seq<Row>, b: seq<Row>, v: real)
    ensures RowsOfValue(a + b, v) == RowsOfValue(a, v) + RowsOfValue(b, v)
  {
    hide RowOfValue;
    if a == [] {
      assert a + b == b;
    } else {
      assert (a + b)[1..] == a[1..] + b;
      RowsOfValueAppend(a[1..], b, v);
    }
  }

  lemma {:induction false} PlacedBeforeTies(x: Item, ranked: seq<Item>, v: real)
    ensures OfValue(Place(x, ranked), v) == OfValue([x] + ranked, v)
  {
    assert ([x] + ranked)[1..] == ranked;
    if ranked != [] && x.value < ranked[0].value {
      var placed := Place(x, ranked);
      assert placed[1..] == Place(x, ranked[1..]);
      PlacedBeforeTies(x, ranked[1..], v);
      assert ([x] + ranked[1..])[1..] == ranked[1..];
    }
  }

  lemma {:induction false} RankedKeepsTies(items: seq<Item>, v: real)
    ensures OfValue(Ranked(items), v) == OfValue(items, v)
  {
    hide Place;
    if items != [] {
      RankedKeepsTies(items[1..], v);
      PlacedBeforeTies(items[0], Ranked(items[1..]), v);
      assert ([items[0]] + Ranked(items[1..]))[1..] == Ranked(items[1..]);
    }
  }

  lemma {:induction false} ItemsAreRows(rows: seq<Row>, v: real)
    ensures OfValue(ItemsOf(rows), v) == RowsOfValue(rows, v)
  {
    if rows != [] {
      var init, last := rows[..|rows| - 1], rows[|rows| - 1];
      assert rows == init + [last];
      ItemsAreRows(init, v);
      RowsOfValueAppend(init, [last], v);
      assert RowsOfValue([last][1..], v) == [];
      if last.value.Some? {
        var item := Item(LabelOf(last), last.value.value);
        OfValueAppend(ItemsOf(init), [item], v);
        assert OfValue([item][1..], v) == [];
      }
    }
  }

  /** Ranking keeps, for each value, the rows that have it, in their order. */
  lemma TiesKeepOrder(rows: seq<Row>, v: real)
    ensures OfValue(Ranked(ItemsOf(rows)), v) == RowsOfValue(rows, v)
  {
    RankedKeepsTies(ItemsOf(rows), v);
    ItemsAreRows(rows, v);
  }

  // ---- Sums ----

  lemma {:induction false} TotalAppend(a: seq<Item>, b: seq<Item>)
    ensures Total(a + b) == Total(a) + Total(b)
  {
    if a == [] {
      assert a + b == b;
    } else {
      assert (a + b)[1..] == a[1..] + b;
      TotalAppend(a[1..], b);
    }
  }

  lemma VisibleTotal(ranked: seq<Item>, limit: nat)
    ensures Total(Visible(ranked, limit)) == Total(ranked) && |Visible(ranked, limit)| <= limit + 1
  {
    var head, tail := Head(ranked, limit), Tail(ranked, limit);
    assert ranked == head + tail;
    TotalAppend(head, tail);
    if tail == [] {
      assert Visible(ranked, limit) == head;
    } else {
      var other := Item(OTHER, Total(tail));
      TotalAppend(head, [other]);
      assert [other][1..] == [];
    }
  }

  function PctTotal(shares: seq<Share>): real {
    if shares == [] then 0.0 else shares[0].pct.GetOr(0.0) + PctTotal(shares[1..])
  }

  lemma NearestHundredth(x: real)
    ensures -0.005 <= RoundTo(x, 2) - x <= 0.005
  {
    assert Power10(2) == 10.0 * Power10(1) == 100.0;
  }

  lemma {:induction false} PctsAddUp(items: seq<Item>, total: real)
    requires total > 0.0
    ensures var n := |items| as real;
      -0.005 * n <= PctTotal(WithShares(items, total)) - Total(items) / total * 100.0 <= 0.005 * n
  {
    hide RoundTo;
    if items != [] {
      PctsAddUp(items[1..], total);
      assert WithShares(items, total)[0].pct == Some(Pct(items[0].value, total));
      PctsOfRest(items, total);
      NearestHundredth(items[0].value / total * 100.0);
      assert Total(items) / total * 100.0 == items[0].value / total * 100.0 + Total(items[1..]) / total * 100.0;
    }
  }

  /** Ranks aside, the shares of the later items are those of the list that starts there. */
  lemma PctsOfRest(items: seq<Item>, total: real)
    requires total > 0.0 && items != []
    ensures PctTotal(WithShares(items, total)[1..]) == PctTotal(WithShares(items[1..], total))
  {
    SamePcts(WithShares(items, total)[1..], WithShares(items[1..], total));
  }

  lemma {:induction false} SamePcts(a: seq<Share>, b: seq<Share>)
    requires |a| == |b| && forall i :: 0 <= i < |a| ==> a[i].pct == b[i].pct
    ensures PctTotal(a) == PctTotal(b)
  {
    if a != [] { SamePcts(a[1..], b[1..]); }
  }

  // ---- Main results ----

  function Values(shares: seq<Share>): seq<Item> {
    seq(|shares|, i requires 0 <= i < |shares| => Item(shares[i].name, shares[i].value))
  }

  /** With a positive total: the values shown add up to the total of all rows, exactly; there is
      at most one item more than asked for; the categories come largest first, none of those
      left out being larger; and the displayed percentages add up to 100 within half a hundredth
      for each item. */
  lemma NothingIsLost(rows: seq<Row>, limit: nat)
    requires Total(ItemsOf(rows)) > 0.0
    ensures var r, all := Distribute(rows, limit), ItemsOf(rows);
      && r.total == Total(all) == Total(Values(r.items))
      && |r.items| <= limit + 1
      && (r.otherApplied <==> |all| > limit)
      && -0.005 * |r.items| as real <= PctTotal(r.items) - 100.0 <= 0.005 * |r.items| as real
  {
    hide WithShares, Ranked, ItemsOf, Total, PctTotal, Values, Visible, Head;
    var all := ItemsOf(rows);
    var ranked := Ranked(all);
    RankedIsDescending(all);
    assert |ranked| == |multiset(ranked)| == |multiset(all)| == |all|;
    VisibleTotal(ranked, limit);
    var visible := Visible(ranked, limit);
    PctsAddUp(visible, Total(ranked));
    WholeIsHundred(Total(ranked));
    ValuesOfShares(visible, Total(ranked));
  }

  lemma WholeIsHundred(total: real)
    requires total > 0.0
    ensures total / total * 100.0 == 100.0
  {
  }

  lemma HeadAndTail(ranked: seq<Item>, limit: nat)
    ensures var head, tail := Head(ranked, limit), Tail(ranked, limit);
      && ranked == head + tail
      && multiset(ranked) - multiset(head) == multiset(tail)
      && Total(tail) == Total(ranked) - Total(head)
  {
    hide Total;
    var head, tail := Head(ranked, limit), Tail(ranked, limit);
    assert ranked == head + tail;
    TotalAppend(head, tail);
  }

  lemma HeadIsLargest(ranked: seq<Item>, limit: nat)
    requires Descending(ranked)
    ensures Descending(Head(ranked, limit))
    ensures forall x: Item, y: Item :: x in Head(ranked, limit) && y in Tail(ranked, limit) ==> x.value >= y.value
  {
  }

  lemma HeadIsFull(ranked: seq<Item>, limit: nat)
    requires Tail(ranked, limit) != []
    ensures |Head(ranked, limit)| == limit
  {
  }

  lemma SameValue(shares: seq<Share>, i: nat)
    ensures |Values(shares)| == |shares| && (i < |shares| ==> Values(shares)[i].value == shares[i].value)
  {
  }

  lemma ValuesOfShares(items: seq<Item>, total: real)
    requires total > 0.0
    ensures Values(WithShares(items, total)) == items && |WithShares(items, total)| == |items|
  {
    hide Pct;
  }

  /** The categories shown are the largest, in order; the rest adds up what is left. */
  lemma LargestAreShown(rows: seq<Row>, limit: nat)
    requires Total(ItemsOf(rows)) > 0.0
    ensures var r, all := Distribute(rows, limit), ItemsOf(rows);
      var shown := if r.otherApplied then Values(r.items)[..|r.items| - 1] else Values(r.items);
      && Descending(shown)
      && multiset(shown) <= multiset(all)
      && (r.otherApplied ==> |shown| == limit && r.items[limit].value == Total(all) - Total(shown))
      && forall x: Item, y: Item :: x in shown && y in multiset(all) - multiset(shown) ==> x.value >= y.value
  {
    hide WithShares, Ranked, ItemsOf, Total, Descending, Head, Tail, Values;
    var all, ranked := ItemsOf(rows), Ranked(ItemsOf(rows));
    RankedIsDescending(all);
    HeadAndTail(ranked, limit);
    HeadIsLargest(ranked, limit);
    var head, tail, visible := Head(ranked, limit), Tail(ranked, limit), Visible(ranked, limit);
    ValuesOfShares(visible, Total(ranked));
    assert visible[..|head|] == head;
    if tail != [] {
      HeadIsFull(ranked, limit);
      SameValue(Distribute(rows, limit).items, limit);
    }
    forall x: Item, y: Item | x in head && y in multiset(all) - multiset(head) ensures x.value >= y.value {
      assert y in multiset(tail);
      assert y in tail;
    }
  }

  /** Every item tells its place and, with a positive total, its own share to the nearest hundredth
      of a percent; what is summed up is called "Other". */
  lemma EachItemTells(rows: seq<Row>, limit: nat, k: nat)
    requires k < |Distribute(rows, limit).items|
    ensures var r := Distribute(rows, limit);
      && r.items[k].rank == k + 1
      && (r.total > 0.0 <==> r.items[k].pct.Some?)
      && (r.total > 0.0 ==> -0.005 <= r.items[k].pct.value - r.items[k].value / r.total * 100.0 <= 0.005)
      && (r.otherApplied ==> r.items[|r.items| - 1].name == "Other")
  {
    hide Ranked, ItemsOf, RoundTo, Total;
    var total := Total(Ranked(ItemsOf(rows)));
    if total > 0.0 { NearestHundredth(Distribute(rows, limit).items[k].value / total * 100.0); }
  }

  /** Without a positive total nothing is summed up or given a share. */
  lemma NoSharesWithoutTotal(rows: seq<Row>, limit: nat)
    requires Total(ItemsOf(rows)) <= 0.0
    ensures var r := Distribute(rows, limit);
      && r.total == 0.0 && !r.otherApplied
      && |r.items| == (if |ItemsOf(rows)| < limit then |ItemsOf(rows)| else limit)
      && Descending(Values(r.items)) && multiset(Values(r.items)) <= multiset(ItemsOf(rows))
      && (forall x: Item, y: Item :: x in Values(r.items) ==>
            (y in multiset(ItemsOf(rows)) - multiset(Values(r.items)) ==> x.value >= y.value))
      && forall s :: s in r.items ==> s.pct.None? && !s.isOther
  {
    hide ItemsOf, Ranked, Descending;
    var ranked, head := Ranked(ItemsOf(rows)), Head(Ranked(ItemsOf(rows)), limit);
    RankedIsDescending(ItemsOf(rows));
    assert |ranked| == |multiset(ranked)| == |multiset(ItemsOf(rows))| == |ItemsOf(rows)|;
    assert Values(WithoutShares(head)) == head;
    HeadAndTail(ranked, limit);
    HeadIsLargest(ranked, limit);
    forall x: Item, y: Item | x in head && y in multiset(ItemsOf(rows)) - multiset(head) ensures x.value >= y.value {
      assert y in multiset(Tail(ranked, limit));
      assert y in Tail(ranked, limit);
    }
  }

  /** An item is marked as the rest by its label, so the mark singles out the summed-up rest
      exactly when no category shown is itself called "Other". */
  lemma OtherMarkIsByLabel(rows: seq<Row>, limit: nat)
    requires Total(ItemsOf(rows)) > 0.0
    ensures var r := Distribute(rows, limit);
      (forall i :: 0 <= i < |r.items| ==> (r.items[i].isOther <==> r.otherApplied && i == |r.items| - 1))
        <==> forall x :: x in Head(Ranked(ItemsOf(rows)), limit) ==> x.name != OTHER
  {
    hide ItemsOf, Ranked, Pct;
    RankedIsDescending(ItemsOf(rows));
    var ranked := Ranked(ItemsOf(rows));
    var r, head := Distribute(rows, limit), Head(ranked, limit);
    assert |r.items| == |head| + (if r.otherApplied then 1 else 0);
    assert forall i :: 0 <= i < |head| ==> (r.items[i].isOther <==> head[i].name == OTHER);
  }

  /** A category of its own called "Other" is marked as the rest. */
  lemma OtherCategoryIsMarked()
    ensures var r := Distribute([Row(Some("Other"), Some(1.0))], 6);
      !r.otherApplied && |r.items| == 1 && r.items[0].isOther
  {
    var rows := [Row(Some("Other"), Some(1.0))];
    assert rows[..0] == [] && ItemsOf(rows) == [Item("Other", 1.0)];
    assert [Item("Other", 1.0)][1..] == [];
    assert Ranked(ItemsOf(rows)) == [Item("Other", 1.0)] && Total([Item("Other", 1.0)]) == 1.0;
  }

  /** Only the rows the query fetched are broken down, so the shares are of the whole exactly when
      the rows its limit cut off add up to nothing. */
  lemma {:induction false} TotalIsOfFetched(rows: seq<Row>, fetched: nat)
    requires fetched <= |rows|
    ensures Total(ItemsOf(rows[..fetched])) == Total(ItemsOf(rows)) <==> Total(ItemsOf(rows[fetched..])) == 0.0
    ensures Total(ItemsOf(rows)) == Total(ItemsOf(rows[..fetched])) + Total(ItemsOf(rows[fetched..]))
    decreases |rows|
  {
    if fetched == |rows| {
      assert rows[..fetched] == rows;
    } else {
      var init, last := rows[..|rows| - 1], rows[|rows| - 1];
      TotalIsOfFetched(init, fetched);
      assert init[..fetched] == rows[..fetched] && rows[fetched..][..|rows| - 1 - fetched] == init[fetched..];
      if last.value.Some? {
        TotalAppend(ItemsOf(init), [Item(LabelOf(last), last.value.value)]);
        TotalAppend(ItemsOf(init[fetched..]), [Item(LabelOf(last), last.value.value)]);
      }
    }
  }
}
