/** What a passed statement returns: the LIMIT its final text runs with, and the row limit the
    executor cuts the rows to. */
module ServedRows {
  import opened Wrappers
  import opened AsciiText
  import opened LimitText
  import V = SqlValidator

  /** A text that ends with a LIMIT clause, as every compiled one does. */
  function Clausal(body: string, sep: char, n: nat): string { body + [sep] + LimitClause(n) }

  /** What becomes of such a text: the text before its last clause, the number in that clause,
      and the row limit recorded. */
  datatype Final = Final(body: string, limit: nat, rowLimit: nat)

  function Requested(body: string, n: nat): nat { ExtractLimit(body).GetOr(n) }

  function FinalOf(body: string, n: nat, cap: nat): Final {
    if Requested(body, n) > cap then Final(Rewrite(false, body, cap), cap, cap) else Final(body, n, Requested(body, n))
  }

  /** How many rows are served at most. */
  function ServedLimit(body: string, n: nat, cap: nat): nat {
    V.Min(FinalOf(body, n, cap).limit, FinalOf(body, n, cap).rowLimit)
  }

  // ---- Rewriting a text that ends with a clause ----

  lemma RewriteOfPrefix(body: string, sep: char, n: nat, m: nat)
    requires IsSpace(sep)
    ensures Rewrite(false, Clausal(body, sep, n), m) == Clausal(Rewrite(false, body, m), sep, m)
  {
    hide Rewrite, Scan, Inert;
    var tail := [sep] + LimitClause(n);
    AppendedClause(sep, n);
    assert Clausal(body, sep, n) == body + tail;
    RewriteIsPrint(false, body + tail, m);
    RewriteIsPrint(false, body, m);
    ScanAppend(false, body, tail);
    PrintAppend(Scan(false, body), [Char(sep), Limit(n)], m);
    PrintOne(sep, n, m);
  }

  lemma PrintOne(sep: char, n: nat, m: nat)
    ensures Print([Char(sep), Limit(n)], m) == [sep] + LimitClause(m)
  {
    var tail := [Char(sep), Limit(n)];
    assert tail[1..] == [Limit(n)] && tail[1..][1..] == [];
    assert Print([Limit(n)], m) == LimitClause(m) + Print([], m);
  }

  /** The guardrail's rewriting leaves the query itself alone exactly when nothing before the last
      clause looks like a LIMIT clause over the cap. */
  lemma BodyKeptIff(body: string, n: nat, cap: nat)
    ensures FinalOf(body, n, cap).body == body <==> ExtractLimit(body).None? || ExtractLimit(body).value <= cap
  {
    hide Rewrite, Scan;
    if Requested(body, n) > cap {
      if ExtractLimit(body).None? {
        PrintWithoutLimits(false, body, cap);
        RewriteIsPrint(false, body, cap);
      } else {
        ExtractAfterApply(body, cap);
      }
    }
  }

  lemma ClausalIsTrimmed(body: string, sep: char, n: nat)
    requires body != "" && !IsSpace(body[0])
    ensures Trim(Clausal(body, sep, n)) == Clausal(body, sep, n)
  {
    hide Dec;
    var t, d := Clausal(body, sep, n), Dec(n);
    assert t[|t| - 1] == d[|d| - 1] && IsDigit(d[|d| - 1]);
    assert t[0] == body[0];
    StripTight(t);
    assert RStripLength(t, IsSemicolon) == |t|;
  }

  lemma WithRowLimitIsFinal(body: string, sep: char, n: nat, cap: nat)
    requires IsSpace(sep)
    ensures var f := FinalOf(body, n, cap);
      V.WithRowLimit(Clausal(body, sep, n), cap) == (Clausal(f.body, sep, f.limit), f.rowLimit)
  {
    hide Rewrite, Scan, Extract, LimitClause;
    RenderedLimitRead(body, sep, n);
    RewriteOfPrefix(body, sep, n, cap);
  }

  /** A passed text ends with its LIMIT clause: the one it came with, or the cap when the limit
      read off it, perhaps inside a literal, was over the cap; and that limit is the one recorded. */
  lemma PassedIsFinal(s: V.Settings, w: V.World, body: string, sep: char, n: nat, compiled: Option<seq<V.ColumnUse>>)
    returns (t: V.Tree)
    requires body != "" && !IsSpace(body[0]) && IsSpace(sep)
    requires V.Validate(s, w, Clausal(body, sep, n), compiled).Passed?
    ensures w.parse(Clausal(body, sep, n)) == Some([t]) && forall r :: r in t.tables ==> r.id in w.policies
    ensures var v := V.Validate(s, w, Clausal(body, sep, n), compiled).validated;
      var f := FinalOf(body, n, V.RowCap(s, w.policies, t.tables));
      v.sql == Clausal(f.body, sep, f.limit) && v.rowLimit == f.rowLimit
  {
    hide V.Validate, V.ColumnOk, V.HasWriteWord, V.ReadOnly, V.RowCap, V.WithRowLimit, Clausal, FinalOf, Trim;
    ClausalIsTrimmed(body, sep, n);
    t := V.PassedMeans(s, w, Clausal(body, sep, n), compiled);
    V.AcceptablePasses(s, w, Clausal(body, sep, n), compiled, t);
    WithRowLimitIsFinal(body, sep, n, V.RowCap(s, w.policies, t.tables));
  }

  /** A literal 'limit 5' does not survive a cap of four. */
  lemma LiteralIsRewritten()
    ensures FinalOf("= 'limit 5'", 10, 4).body != "= 'limit 5'"
  {
    LimitFiveCompared();
    BodyKeptIff("= 'limit 5'", 10, 4);
  }
}
