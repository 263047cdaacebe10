/** Statements go through the guardrail and then through the cached executor. */
module GuardedExecution {
  import opened Wrappers
  import LimitText
  import AsciiText
  import Fingerprint
  import Q = QueryCache
  import SqlText
  import ServedRows
  import V = SqlValidator

  /** A statement the guardrail passed, as the executor gets it. */
  ghost predicate PassedBy(settings: V.Settings, w: V.World, sql: string, compiled: Option<seq<V.ColumnUse>>,
    st: Q.Statement)
  {
    && V.Validate(settings, w, sql, compiled).Passed?
    && var v := V.Validate(settings, w, sql, compiled).validated;
      st == Q.Statement(v.sql, v.rowLimit, v.explainCost)
  }

  /** Calls follow one another, and each executes a statement passed for some request, under
      the policies of its own role. */
  ghost predicate Guarded(settings: V.Settings, worlds: seq<V.World>, requests: seq<string>,
    compiled: seq<Option<seq<V.ColumnUse>>>, calls: seq<Q.Call>)
  {
    && |worlds| == |requests| == |compiled| == |calls|
    && (forall i :: 0 <= i < |calls| ==>
          && PassedBy(settings, worlds[i], requests[i], compiled[i], calls[i].statement)
          && Q.Ordered(calls[i].clock)
          && Fingerprint.BarFree(AsciiText.Lower(AsciiText.Strip(calls[i].role))))
    && (forall i, j :: 0 <= i < j < |calls| ==> calls[i].clock.done < calls[j].clock.start)
  }

  lemma PassedStatesItsLimit(settings: V.Settings, w: V.World, sql: string, compiled: Option<seq<V.ColumnUse>>,
    st: Q.Statement)
    requires PassedBy(settings, w, sql, compiled, st)
    ensures LimitText.ExtractLimit(st.sql) == Some(st.rowLimit) && st.rowLimit <= settings.maxResultRows
    ensures forall id :: id in V.Validate(settings, w, sql, compiled).validated.tables ==>
      id in w.policies && st.rowLimit <= w.policies[id].rowLimit
  {
    hide V.Validate, LimitText.ExtractLimit;
    var t := V.PassedMeans(settings, w, sql, compiled);
  }

  /** Whoever asked what before, and whether or not the answer comes from the cache, nobody gets
      more rows than the global maximum and the policies of the tables of the statement asked
      now allow. */
  lemma EveryAnswerWithinPolicy(settings: V.Settings, worlds: seq<V.World>, requests: seq<string>,
    compiled: seq<Option<seq<V.ColumnUse>>>, cache: Q.Settings, calls: seq<Q.Call>, k: nat)
    requires Guarded(settings, worlds, requests, compiled, calls) && k < |calls|
    requires Q.AnswerAt(cache, calls, k).Answer?
    ensures var rows := |Q.AnswerAt(cache, calls, k).rows|;
      && rows <= settings.maxResultRows
      && forall id :: id in V.Validate(settings, worlds[k], requests[k], compiled[k]).validated.tables ==>
          id in worlds[k].policies && rows <= worlds[k].policies[id].rowLimit
  {
    hide V.Validate, Q.AnswerAt, LimitText.ExtractLimit, AsciiText.Lower, AsciiText.Strip;
    forall i | 0 <= i < |calls|
      ensures LimitText.ExtractLimit(calls[i].statement.sql) == Some(calls[i].statement.rowLimit)
    {
      PassedStatesItsLimit(settings, worlds[i], requests[i], compiled[i], calls[i].statement);
    }
    assert Q.Sound(calls);
    Q.AnswersWithinLimit(cache, calls, k);
    PassedStatesItsLimit(settings, worlds[k], requests[k], compiled[k], calls[k].statement);
  }

  // ---- Wrong rows through guardrail and cache ----

  const ORDERS_TREE := V.Tree(
    [V.TableRef("fact.orders", "orders", "orders")], ["status_order"], [V.ColumnUse("", "status_order")], false,
    [V.Read("fact.orders", "status_order")])

  const ORDERS_ONLY := V.Settings({"fact.orders"}, {}, 1000, 1.0)

  const ORDERS_WORLD :=
    V.World(_ => Some([ORDERS_TREE]), map["fact.orders" := V.Policy({"status_order"}, 100)], _ => Some(0.0))

  function AskedPieces(): seq<SqlText.Piece> {
    [SqlText.Given(" ", "status_order"), SqlText.Own(" ", "FROM"), SqlText.Given(" ", "fact"),
     SqlText.Given(".", "orders")]
  }

  function ValuePieces(value: string): seq<SqlText.Piece> {
    [SqlText.Own(" ", "WHERE"), SqlText.Given(" ", "status_order"), SqlText.Given(" = '", value), SqlText.Own("'", "")]
  }

  lemma AskingAsPieces(value: string)
    ensures Fingerprint.Asking(value)
         == ServedRows.Clausal(SqlText.TextAfter("SELECT", AskedPieces() + ValuePieces(value)), ' ', 5)
  {
    hide SqlText.TextAfter, LimitText.LimitClause;
    SqlText.TextAppend("SELECT", AskedPieces(), ValuePieces(value));
    AskedText();
    ValueText("SELECT status_order" + " FROM fact.orders", value);
    assert " WHERE status_order = '" == " WHERE status_order = " + "'";
  }

  lemma AskedText()
    ensures SqlText.TextAfter("SELECT", AskedPieces()) == "SELECT status_order" + " FROM fact.orders"
  {
    hide SqlText.TextAfter;
    SqlText.TextOfFour("SELECT", SqlText.Given(" ", "status_order"), SqlText.Own(" ", "FROM"),
      SqlText.Given(" ", "fact"), SqlText.Given(".", "orders"));
    SqlText.Associate("SELECT", " ", "status_order", " ", "FROM", " ", "fact", ".", "orders");
    var column, source := " " + "status_order", " " + "FROM" + " " + "fact" + "." + "orders";
    assert " " + "status_order" + " " + "FROM" + " " + "fact" + "." + "orders" == column + source;
    assert "SELECT" + (column + source) == ("SELECT" + column) + source;
    assert "SELECT" + column == "SELECT status_order" && source == " FROM fact.orders";
  }

  lemma ValueText(t: string, value: string)
    ensures SqlText.TextAfter(t, ValuePieces(value)) == t + " WHERE status_order = '" + value + "'"
  {
    hide SqlText.TextAfter;
    SqlText.TextOfFour(t, SqlText.Own(" ", "WHERE"), SqlText.Given(" ", "status_order"), SqlText.Given(" = '", value),
      SqlText.Own("'", ""));
    SqlText.Associate(t, " ", "WHERE", " ", "status_order", " = '", value, "'", "");
    assert " " + "WHERE" + " " + "status_order" + " = '" == " WHERE status_order = '";
  }

  lemma PlainWords()
    ensures forall w :: w in {"status_order", "fact", "orders", "DONE", "done"} ==> SqlText.PlainWord(w)
  {
    hide SqlText.PlainWord;
    StatusIsPlain();
    TableIsPlain();
    ValuesArePlain();
  }

  lemma StatusIsPlain()
    ensures SqlText.PlainWord("status_order")
  {
  }

  lemma TableIsPlain()
    ensures SqlText.PlainWord("fact") && SqlText.PlainWord("orders")
  {
  }

  lemma ValuesArePlain()
    ensures SqlText.PlainWord("DONE") && SqlText.PlainWord("done")
  {
  }

  lemma Signs()
    ensures forall s :: s in {" ", ".", " = '", "'"} ==> s != "" && LimitText.NoWord(s)
    ensures SqlText.HasMark(".") && SqlText.HasMark(" = '") && SqlText.HasMark("'")
  {
  }

  lemma AskingIsGood(value: string)
    ensures SqlText.GoodPieces(true, AskedPieces() + ValuePieces(value))
  {
    hide SqlText.GoodPieces, SqlText.StartsNumber, SqlText.HasMark, LimitText.NoWord, SqlText.PlainWord;
    Signs();
    SqlText.GoodOne(true, SqlText.Given(" ", "status_order"));
    SqlText.GoodThree(false, SqlText.Own(" ", "FROM"), SqlText.Given(" ", "fact"), SqlText.Given(".", "orders"));
    SqlText.GoodAppend(true, [SqlText.Given(" ", "status_order")],
      [SqlText.Own(" ", "FROM"), SqlText.Given(" ", "fact"), SqlText.Given(".", "orders")]);
    SqlText.GoodTwo(false, SqlText.Own(" ", "WHERE"), SqlText.Given(" ", "status_order"));
    SqlText.GoodTwo(false, SqlText.Given(" = '", value), SqlText.Own("'", ""));
    SqlText.GoodAppend(false, [SqlText.Own(" ", "WHERE"), SqlText.Given(" ", "status_order")],
      [SqlText.Given(" = '", value), SqlText.Own("'", "")]);
    assert AskedPieces() == [SqlText.Given(" ", "status_order")]
      + [SqlText.Own(" ", "FROM"), SqlText.Given(" ", "fact"), SqlText.Given(".", "orders")];
    assert ValuePieces(value) == [SqlText.Own(" ", "WHERE"), SqlText.Given(" ", "status_order")]
      + [SqlText.Given(" = '", value), SqlText.Own("'", "")];
    SqlText.GoodAppend(true, AskedPieces(), ValuePieces(value));
  }

  /** The guardrail passes the statement as it stands. */
  lemma AskingPasses(value: string)
    requires value in {"DONE", "done"}
    ensures V.Validate(ORDERS_ONLY, ORDERS_WORLD, Fingerprint.Asking(value), None)
      == V.Passed(V.Validated(Fingerprint.Asking(value), {"fact.orders"}, 5, 0.0))
  {
    hide V.HasWriteWord, V.ReadOnly, V.WithRowLimit, V.RowCap, ServedRows.Clausal, LimitText.ExtractLimit;
    hide AsciiText.Trim;
    hide SqlText.TextAfter, SqlText.GoodPieces, SqlText.GivenLimit, SqlText.PlainWord, Fingerprint.Asking;
    var ps := AskedPieces() + ValuePieces(value);
    var body := SqlText.TextAfter("SELECT", ps);
    AskingAsPieces(value);
    AskingIsGood(value);
    AskingIsHarmless(value);
    SqlText.PiecesShowOnlyWhatIsGiven(ps, ' ', 5);
    CapIsHundred();
    V.TreeDecision(ORDERS_ONLY, ORDERS_WORLD, Fingerprint.Asking(value), ORDERS_TREE, None);
    ServedRows.WithRowLimitIsFinal(body, ' ', 5, 100);
    assert Fingerprint.Asking(value) != "" by { ClausalIsSome(body); }
    assert ORDERS_TREE.tables[0].id in V.TableIds(ORDERS_TREE.tables);
    assert V.TableIds(ORDERS_TREE.tables) == {"fact.orders"};
  }

  lemma ClausalIsSome(body: string)
    ensures ServedRows.Clausal(body, ' ', 5) != ""
  {
  }

  lemma AskingIsHarmless(value: string)
    requires value in {"DONE", "done"}
    ensures var ps := AskedPieces() + ValuePieces(value); !SqlText.GivenWriteWord(ps) && !SqlText.GivenLimit(ps)
  {
    hide V.HasWriteWord, LimitText.ExtractLimit, SqlText.PlainWord;
    PlainWords();
    var ps := AskedPieces() + ValuePieces(value);
    forall p | p in ps && p.given ensures SqlText.Harmless(p.body) {
      assert p.body in {"status_order", "fact", "orders", value};
      SqlText.PlainIsHarmless(p.body);
    }
  }

  lemma CapIsHundred()
    ensures (forall r :: r in ORDERS_TREE.tables ==> r.id in ORDERS_WORLD.policies)
    ensures V.RowCap(ORDERS_ONLY, ORDERS_WORLD.policies, ORDERS_TREE.tables) == 100
  {
    assert ORDERS_TREE.tables[1..] == [];
  }

  lemma CallsAreGuarded(row: Q.Row)
    ensures Guarded(ORDERS_ONLY, [ORDERS_WORLD, ORDERS_WORLD], [Fingerprint.Asking("DONE"), Fingerprint.Asking("done")],
      [None, None], [Q.TwoCalls(row).0, Q.TwoCalls(row).1])
  {
    hide V.Validate, Fingerprint.Asking, Fingerprint.BarFree, AsciiText.Strip;
    AskingPasses("DONE");
    AskingPasses("done");
    NoRole();
  }

  lemma NoRole()
    ensures Fingerprint.BarFree(AsciiText.Lower(AsciiText.Strip("")))
  {
  }

  /** Two requests that the guardrail passes and that differ in a literal's letter case: the
      second is served, from the cache, rows the database never gives for its statement. */
  lemma WrongRowsPass(cache: Q.Settings) returns (calls: seq<Q.Call>, db: Q.Database)
    requires cache.cacheEnabled && cache.ttl >= 1 && cache.maxCachedRows >= 5
    ensures Guarded(ORDERS_ONLY, [ORDERS_WORLD, ORDERS_WORLD], [Fingerprint.Asking("DONE"), Fingerprint.Asking("done")],
      [None, None], calls)
    ensures Q.Exact(db) && Q.RecordedFrom(calls, db)
    ensures |calls| == 2 && Q.AnswerAt(cache, calls, 1).Answer? && Q.AnswerAt(cache, calls, 1).cached
    ensures forall t :: db(t, Fingerprint.Asking("done")) == Q.Returned([]) && Q.AnswerAt(cache, calls, 1).rows != []
  {
    hide Guarded, Q.AnswerAt, Fingerprint.Asking, Q.Exact, Q.RecordedFrom, Q.Sound, Q.TwoCalls;
    calls, db := Q.WrongRowsServed(cache);
    var row: Q.Row :| calls == [Q.TwoCalls(row).0, Q.TwoCalls(row).1];
    CallsAreGuarded(row);
    var asked := Fingerprint.Asking("done");
    assert calls[1].statement.sql == asked;
    assert forall t :: db(t, asked) == Q.Returned([]) && Q.AnswerAt(cache, calls, 1).rows != [];
  }
}
