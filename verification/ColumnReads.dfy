/** What the column checks of the guardrail say about the columns a statement really reads. */
module ColumnReads {
  import opened Wrappers
  import opened SqlValidator
  import AsciiText
  import LimitText
  import opened SqlText

  ghost predicate ReadApproved(s: Settings, policies: map<string, Policy>, r: Read) {
    && r.column !in s.forbiddenColumns
    && (r.table in policies && policies[r.table].allowedColumns != {} ==> r.column in policies[r.table].allowedColumns)
  }

  ghost predicate AllReadsApproved(s: Settings, policies: map<string, Policy>, t: Tree) {
    forall r :: r in t.sources ==> ReadApproved(s, policies, r)
  }

  ghost predicate ChecksPass(s: Settings, policies: map<string, Policy>, t: Tree, columns: seq<ColumnUse>) {
    forall c :: c in columns ==> ColumnOk(s, t, policies, c)
  }

  function TableFor(t: Tree, c: ColumnUse): Option<string> { TableOf(AliasMap(t.tables), TableIds(t.tables), c) }

  predicate Ignores(t: Tree, c: ColumnUse) { c.name == "" || c.name in t.outputs }

  /** Some listed column has the validator look up this very column of this very table. */
  predicate LooksUp(t: Tree, columns: seq<ColumnUse>, r: Read) {
    exists c :: c in columns && c.name == r.column && !Ignores(t, c) && TableFor(t, c) == Some(r.table)
  }

  /** The checks could pass under some policies. */
  predicate Resolvable(t: Tree, columns: seq<ColumnUse>) {
    forall c :: c in columns ==> Ignores(t, c) || TableFor(t, c).Some?
  }

  predicate ReadsFromTables(t: Tree) { forall r :: r in t.sources ==> r.table in TableIds(t.tables) }

  /** Columns looked up are approved whenever the checks pass. */
  lemma LookedUpIsApproved(s: Settings, policies: map<string, Policy>, t: Tree, columns: seq<ColumnUse>, r: Read)
    requires ChecksPass(s, policies, t, columns) && LooksUp(t, columns, r)
    ensures ReadApproved(s, policies, r)
  {
    hide TableOf, AliasMap, ColumnOk;
    var c :| c in columns && c.name == r.column && !Ignores(t, c) && TableFor(t, c) == Some(r.table);
    OkForTable(s, t, policies, c, r.table);
  }

  /** Settings and policies under which the checks pass although r is read: r's name is
      forbidden if it is never looked up for any table, else left out of its table's policy. */
  ghost function Blind(t: Tree, columns: seq<ColumnUse>, r: Read): (Settings, map<string, Policy>) {
    if r.column in t.outputs || r.column == "" then
      (Settings(TableIds(t.tables), {r.column}, 1, 0.0), map id | id in TableIds(t.tables) :: Policy({}, 1))
    else
      (Settings(TableIds(t.tables), {}, 1, 0.0),
       map id | id in TableIds(t.tables) ::
         Policy(if id == r.table then {r.column + "_"} + LookedUp(t, columns, id) else {}, 1))
  }

  ghost function LookedUp(t: Tree, columns: seq<ColumnUse>, id: string): set<string> {
    set c | c in columns && !Ignores(t, c) && TableFor(t, c) == Some(id) :: c.name
  }

  lemma BlindPasses(t: Tree, columns: seq<ColumnUse>, r: Read)
    requires Resolvable(t, columns) && r.table in TableIds(t.tables) && !LooksUp(t, columns, r)
    ensures var (s, policies) := Blind(t, columns, r);
      ChecksPass(s, policies, t, columns) && !ReadApproved(s, policies, r) && policies.Keys == TableIds(t.tables)
  {
    hide TableOf, AliasMap, Meant;
    var (s, policies) := Blind(t, columns, r);
    forall c | c in columns ensures ColumnOk(s, t, policies, c) {
      if !Ignores(t, c) {
        var id := TableFor(t, c).value;
        OkForTable(s, t, policies, c, id);
        assert r.column != "" && r.column !in t.outputs && id == r.table ==> c.name in LookedUp(t, columns, id);
      }
    }
    if r.column != "" && r.column !in t.outputs {
      assert |r.column + "_"| != |r.column|;
      assert r.column !in LookedUp(t, columns, r.table);
    }
  }

  /** The column checks keep every unapproved column from being read, whatever the settings and
      policies, if and only if each column read is looked up as itself: under its own table,
      and not under a name that some output bears. */
  lemma ReadsApprovedIffLookedUp(t: Tree, columns: seq<ColumnUse>)
    requires Resolvable(t, columns) && ReadsFromTables(t)
    ensures (forall s: Settings, policies: map<string, Policy> ::
               policies.Keys == TableIds(t.tables) && ChecksPass(s, policies, t, columns) ==>
                 AllReadsApproved(s, policies, t))
      <==> forall r :: r in t.sources ==> LooksUp(t, columns, r)
  {
    hide LooksUp, ChecksPass, ReadApproved, Resolvable;
    forall s, policies, r | ChecksPass(s, policies, t, columns) && r in t.sources && LooksUp(t, columns, r)
      ensures ReadApproved(s, policies, r)
    {
      LookedUpIsApproved(s, policies, t, columns, r);
    }
    if r :| r in t.sources && !LooksUp(t, columns, r) {
      BlindPasses(t, columns, r);
      var (s, policies) := Blind(t, columns, r);
      assert ChecksPass(s, policies, t, columns) && !AllReadsApproved(s, policies, t);
    }
  }

  /** So a passed statement whose columns are all looked up as themselves reads no forbidden
      column and none outside its tables' policies. */
  lemma PassedReadsApproved(s: Settings, w: World, sql: string, compiled: Option<seq<ColumnUse>>) returns (t: Tree)
    requires Validate(s, w, sql, compiled).Passed?
    ensures w.parse(AsciiText.Trim(sql)) == Some([t])
    ensures (forall r :: r in t.sources ==> LooksUp(t, compiled.GetOr(t.columns), r)) ==>
      AllReadsApproved(s, w.policies, t)
  {
    hide Validate, LooksUp, ReadApproved, ColumnOk;
    t := PassedMeans(s, w, sql, compiled);
    forall r | r in t.sources && LooksUp(t, compiled.GetOr(t.columns), r) ensures ReadApproved(s, w.policies, r) {
      LookedUpIsApproved(s, w.policies, t, compiled.GetOr(t.columns), r);
    }
  }

  // ---- A forbidden column under its own name ----

  const ALIASED := "SELECT" + " fo.password AS password" + " FROM fact.orders fo"

  const ALIASED_TREE := Tree(
    [TableRef("fact.orders", "orders", "fo")], ["password"], [ColumnUse("fo", "password")], false,
    [Read("fact.orders", "password")])

  const STRICT := Settings({"fact.orders"}, {"password"}, 1000, 1.0)

  const PERMISSIVE := World(_ => Some([ALIASED_TREE]), map["fact.orders" := Policy({}, 5)], _ => Some(0.0))

  function SelectedPieces(): seq<Piece> {
    [Given(" ", "fo")] + [Given(".", "password")] + [Own(" ", "AS"), Given(" ", "password")]
  }

  function SourcePieces(): seq<Piece> {
    [Own(" ", "FROM"), Given(" ", "fact")] + [Given(".", "orders")] + [Given(" ", "fo")]
  }

  lemma HarmlessWords()
    ensures forall w :: w in ["fo", "password", "fact", "orders"] ==>
      AllWord(w) && Shape(w) !in WRITE_SHAPES && !StartsNumber(w)
    ensures HasMark(".") && LimitText.NoWord(".") && LimitText.NoWord(" ")
  {
    HarmlessTables();
  }

  lemma HarmlessTables()
    ensures forall w :: w in ["fact", "orders"] ==> AllWord(w) && Shape(w) !in WRITE_SHAPES && !StartsNumber(w)
  {
  }

  lemma AliasedIsGood()
    ensures GoodPieces(true, SelectedPieces() + SourcePieces())
  {
    hide StartsNumber, HasMark, AllWord, LimitText.NoWord, GoodPieces, Shape;
    HarmlessWords();
    GoodOne(true, Given(" ", "fo"));
    GoodOne(false, Given(" ", "fo"));
    GoodOne(false, Given(".", "password"));
    GoodOne(false, Given(".", "orders"));
    GoodTwo(false, Own(" ", "AS"), Given(" ", "password"));
    GoodTwo(false, Own(" ", "FROM"), Given(" ", "fact"));
    GoodAppend(true, [Given(" ", "fo")], [Given(".", "password")]);
    GoodAppend(true, [Given(" ", "fo")] + [Given(".", "password")], [Own(" ", "AS"), Given(" ", "password")]);
    GoodAppend(false, [Own(" ", "FROM"), Given(" ", "fact")], [Given(".", "orders")]);
    GoodAppend(false, [Own(" ", "FROM"), Given(" ", "fact")] + [Given(".", "orders")], [Given(" ", "fo")]);
    GoodAppend(true, SelectedPieces(), SourcePieces());
  }

  lemma AliasedAsPieces()
    ensures TextAfter("SELECT", SelectedPieces() + SourcePieces()) == ALIASED
  {
    hide TextAfter;
    TextAppend("SELECT", SelectedPieces(), SourcePieces());
    SelectedText();
    SourceText("SELECT" + " fo.password AS password");
  }

  lemma SelectedText()
    ensures TextAfter("SELECT", SelectedPieces()) == "SELECT" + " fo.password AS password"
  {
    hide TextAfter;
    assert SelectedPieces() == [Given(" ", "fo"), Given(".", "password"), Own(" ", "AS"), Given(" ", "password")];
    TextOfFour("SELECT", Given(" ", "fo"), Given(".", "password"), Own(" ", "AS"), Given(" ", "password"));
    Associate("SELECT", " ", "fo", ".", "password", " ", "AS", " ", "password");
    assert " " + "fo" + "." + "password" + " " + "AS" + " " + "password" == " fo.password AS password";
  }

  lemma SourceText(t: string)
    ensures TextAfter(t, SourcePieces()) == t + " FROM fact.orders fo"
  {
    hide TextAfter;
    assert SourcePieces() == [Own(" ", "FROM"), Given(" ", "fact"), Given(".", "orders"), Given(" ", "fo")];
    TextOfFour(t, Own(" ", "FROM"), Given(" ", "fact"), Given(".", "orders"), Given(" ", "fo"));
    Associate(t, " ", "FROM", " ", "fact", ".", "orders", " ", "fo");
    assert " " + "FROM" + " " + "fact" + "." + "orders" + " " + "fo" == " FROM fact.orders fo";
  }

  lemma AliasedIsClean()
    ensures !HasWriteWord(ALIASED) && ReadOnly(ALIASED) && AsciiText.Trim(ALIASED) == ALIASED
  {
    hide HasWriteWord, GoodPieces, TextAfter, Shape, ReadOnly;
    AliasedAsPieces();
    AliasedIsGood();
    HarmlessWords();
    var ps := SelectedPieces() + SourcePieces();
    WriteWordsAfter("SELECT", true, ps);
    KeywordsAreNotWriteWords("SELECT");
    forall p | p in ps && p.given ensures !HasWriteWord(p.body) {
      assert p.body in ["fo", "password", "fact", "orders"];
      WriteWordOfWord(p.body);
      if AsciiText.Lower(p.body) in WRITE_WORDS { WriteWordShapes(p.body); }
    }
    SelectReads(ALIASED);
    AsciiText.StripTight(ALIASED);
    AliasedIsTrimmed();
  }

  lemma AliasedIsTrimmed()
    ensures AsciiText.Trim(ALIASED) == ALIASED
  {
    assert ALIASED[0] == 'S' && ALIASED[|ALIASED| - 1] == 'o';
    AsciiText.StripTight(ALIASED);
  }

  /** A forbidden column that is given its own name as output name passes every check. */
  lemma AliasedColumnPasses()
    ensures Validate(STRICT, PERMISSIVE, ALIASED, None).Passed?
    ensures ReadsFromTables(ALIASED_TREE) && !AllReadsApproved(STRICT, PERMISSIVE.policies, ALIASED_TREE)
    ensures !LooksUp(ALIASED_TREE, ALIASED_TREE.columns, Read("fact.orders", "password"))
  {
    hide HasWriteWord, ReadOnly, ValidateTree, RowCap, WithRowLimit;
    AliasedIsClean();
    TreeDecision(STRICT, PERMISSIVE, ALIASED, ALIASED_TREE, None);
    assert ALIASED_TREE.tables[0].id in TableIds(ALIASED_TREE.tables);
  }
}
