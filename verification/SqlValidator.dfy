/** The guardrail every statement passes before it runs: a read-only single SELECT over
    whitelisted tables and policy columns, with a row limit within policy. */
module SqlValidator {
  import opened Wrappers
  import opened AsciiText
  import opened LimitText

  // ---- The parse tree, names lower-cased ----

  /** A table of the statement: "schema.name", the bare name, and the alias or name it goes by. */
  datatype TableRef = TableRef(id: string, name: string, alias: string)

  /** A column as written; the qualifier is empty when there is none. */
  datatype ColumnUse = ColumnUse(qualifier: string, name: string)

  /** A column of a table that the statement reads, by SQL's own rules of scope. */
  datatype Read = Read(table: string, column: string)

  /** `columns` lists the names as the validator sees them; `sources` is what they stand for,
      which it does not see. */
  datatype Tree = Tree(
    tables: seq<TableRef>, outputs: seq<string>, columns: seq<ColumnUse>, hasStar: bool, sources: seq<Read>)

  // ---- Settings, policies and what lies outside ----

  datatype Policy = Policy(allowedColumns: set<string>, rowLimit: nat)

  datatype Settings = Settings(
    allowedTables: set<string>, forbiddenColumns: set<string>, maxResultRows: nat, explainMaxCost: real)

  /** The SQL parser, the active policies of the caller's role, and EXPLAIN. */
  datatype World = World(
    parse: string -> Option<seq<Tree>>, policies: map<string, Policy>, explain: string -> Option<real>)

  datatype Check =
    | NonEmptySql | KeywordDenylist | ReadonlyStatement | ParseTree | SingleStatement | SelectStar
    | TablePresence | TableWhitelist(tables: set<string>) | AccessPolicy(tables: set<string>)
    | ForbiddenColumns(names: seq<string>) | ColumnWhitelist(columns: seq<ColumnUse>)
    | PostLimitParseTree | ExplainPlan | ExplainCost

  datatype Validated = Validated(sql: string, tables: set<string>, rowLimit: nat, explainCost: real)

  datatype Decision = Blocked(check: Check) | Passed(validated: Validated)

  // ---- Text checks ----

  const WRITE_WORDS: seq<string> := [
    "drop", "delete", "update", "insert", "alter", "truncate", "create", "grant", "revoke", "copy", "merge", "call",
    "execute"]

  /** The pattern `\bword\b`, ignoring case, at position i. */
  predicate WordIs(s: string, word: string, i: nat) {
    i + |word| <= |s| && Boundary(s, i) && Lower(s[i..i + |word|]) == word && Boundary(s, i + |word|)
  }

  predicate HasWriteWord(s: string) {
    exists w, i :: w in WRITE_WORDS && 0 <= i <= |s| && WordIs(s, w, i)
  }

  predicate StartsWith(s: string, word: string) {
    |word| <= |s| && Lower(s[..|word|]) == word && !WordAt(s, |word|)
  }

  predicate ReadOnly(s: string) {
    StartsWith(LStrip(s), "select") || StartsWith(LStrip(s), "with")
  }

  // ---- Tables, aliases, columns ----

  function TableIds(tables: seq<TableRef>): set<string> { set t | t in tables :: t.id }

  /** The tables without an active policy. */
  function Unprotected(ids: set<string>, policies: map<string, Policy>): set<string> {
    set id | id in ids && id !in policies
  }

  function Register(m: map<string, string>, t: TableRef): map<string, string> {
    var withAlias := if t.alias != "" then m[t.alias := t.id] else m;
    if t.name != "" then withAlias[t.name := t.id] else withAlias
  }

  function AliasMap(tables: seq<TableRef>): map<string, string> {
    if tables == [] then map[] else Register(AliasMap(tables[..|tables| - 1]), tables[|tables| - 1])
  }

  /** The table a column belongs to: by its qualifier, or the only table there is. */
  function TableOf(aliases: map<string, string>, ids: set<string>, c: ColumnUse): Option<string> {
    if c.qualifier in aliases && aliases[c.qualifier] != "" then Some(aliases[c.qualifier])
    else if |ids| == 1 then Some(Only(ids))
    else None
  }

  lemma OneElement<T>(s: set<T>, x: T, y: T)
    requires |s| == 1 && x in s && y in s
    ensures x == y
  {
    var rest := s - {x};
    assert |rest| == 0;
    assert y !in rest;
  }

  function Only(ids: set<string>): (r: string)
    requires |ids| == 1
    ensures ids == {r}
  {
    assert |ids| != 0;
    assert forall x, y :: x in ids && y in ids ==> x == y by {
      forall x, y | x in ids && y in ids ensures x == y { OneElement(ids, x, y); }
    }
    var x :| x in ids;
    x
  }

  datatype ColumnStatus = Ignored | Sensitive | Unapproved | Approved

  function StatusOf(s: Settings, t: Tree, policies: map<string, Policy>, c: ColumnUse): ColumnStatus {
    if c.name == "" || c.name in t.outputs then Ignored
    else if c.name in s.forbiddenColumns then Sensitive
    else
      var table := TableOf(AliasMap(t.tables), TableIds(t.tables), c);
      if table.None? then Unapproved
      else
        var allowed := if table.value in policies then policies[table.value].allowedColumns else {};
        if allowed != {} && c.name !in allowed then Unapproved else Approved
  }

  function SensitiveNames(s: Settings, t: Tree, policies: map<string, Policy>, columns: seq<ColumnUse>): seq<string> {
    if columns == [] then []
    else
      var before, last := SensitiveNames(s, t, policies, columns[..|columns| - 1]), columns[|columns| - 1];
      if StatusOf(s, t, policies, last).Sensitive? then before + [last.name] else before
  }

  function UnapprovedColumns(s: Settings, t: Tree, policies: map<string, Policy>,
    columns: seq<ColumnUse>): seq<ColumnUse>
  {
    if columns == [] then []
    else
      var before, last := UnapprovedColumns(s, t, policies, columns[..|columns| - 1]), columns[|columns| - 1];
      if StatusOf(s, t, policies, last).Unapproved? then before + [last] else before
  }

  // ---- Row limit ----

  function Min(a: nat, b: nat): nat { if a <= b then a else b }

  /** The least of the tables' policy limits and the global one. */
  function RowCap(s: Settings, policies: map<string, Policy>, tables: seq<TableRef>): (cap: nat)
    requires forall t :: t in tables ==> t.id in policies
    ensures cap <= s.maxResultRows && forall t :: t in tables ==> cap <= policies[t.id].rowLimit
    ensures cap == s.maxResultRows || exists t :: t in tables && cap == policies[t.id].rowLimit
  {
    if tables == [] then s.maxResultRows
    else Min(RowCap(s, policies, tables[1..]), policies[tables[0].id].rowLimit)
  }

  function WithRowLimit(sql: string, cap: nat): (string, nat) {
    match ExtractLimit(sql)
    case None => (ApplyLimit(sql, cap), cap)
    case Some(requested) => if requested > cap then (ApplyLimit(sql, cap), cap) else (sql, requested)
  }

  // ---- The whole decision ----

  function Validate(s: Settings, w: World, sql: string, compiled: Option<seq<ColumnUse>>): Decision {
    var cleaned := Trim(sql);
    if cleaned == "" then Blocked(NonEmptySql)
    else if HasWriteWord(cleaned) then Blocked(KeywordDenylist)
    else if !ReadOnly(cleaned) then Blocked(ReadonlyStatement)
    else
      match w.parse(cleaned)
      case None => Blocked(ParseTree)
      case Some(trees) =>
        if |trees| != 1 then Blocked(SingleStatement) else ValidateTree(s, w, cleaned, trees[0], compiled)
  }

  function ValidateTree(s: Settings, w: World, cleaned: string, t: Tree, compiled: Option<seq<ColumnUse>>): Decision {
    var ids, columns := TableIds(t.tables), compiled.GetOr(t.columns);
    if t.hasStar then Blocked(SelectStar)
    else if ids == {} then Blocked(TablePresence)
    else if ids - s.allowedTables != {} then Blocked(TableWhitelist(ids - s.allowedTables))
    else if Unprotected(ids, w.policies) != {} then Blocked(AccessPolicy(Unprotected(ids, w.policies)))
    else
      var sensitive, unapproved :=
        SensitiveNames(s, t, w.policies, columns), UnapprovedColumns(s, t, w.policies, columns);
      if sensitive != [] then Blocked(ForbiddenColumns(sensitive))
      else if unapproved != [] then Blocked(ColumnWhitelist(unapproved))
      else
        assert forall r :: r in t.tables ==> r.id in ids && r.id !in Unprotected(ids, w.policies);
        var (limited, rowLimit) := WithRowLimit(cleaned, RowCap(s, w.policies, t.tables));
        if w.parse(limited).None? then Blocked(PostLimitParseTree)
        else
          match w.explain(limited)
          case None => Blocked(ExplainPlan)
          case Some(cost) =>
            if cost > s.explainMaxCost then Blocked(ExplainCost)
            else Passed(Validated(limited, ids, rowLimit, cost))
  }

  // ---- The loops ----

  method BuildAliasMap(tables: seq<TableRef>) returns (mapping: map<string, string>)
    ensures mapping == AliasMap(tables)
  {
    mapping := map[];
    for i := 0 to |tables|
      invariant mapping == AliasMap(tables[..i])
    {
      assert tables[..i + 1][..i] == tables[..i];
      var table := tables[i];
      if table.alias != "" { mapping := mapping[table.alias := table.id]; }
      if table.name != "" { mapping := mapping[table.name := table.id]; }
    }
    assert tables[..|tables|] == tables;
  }

  lemma NoColumns(s: Settings, t: Tree, policies: map<string, Policy>)
    ensures SensitiveNames(s, t, policies, []) == [] && UnapprovedColumns(s, t, policies, []) == []
  {
  }

  lemma OneMoreColumn(s: Settings, t: Tree, policies: map<string, Policy>, columns: seq<ColumnUse>, i: nat)
    requires i < |columns|
    ensures SensitiveNames(s, t, policies, columns[..i + 1]) ==
      SensitiveNames(s, t, policies, columns[..i])
        + (if StatusOf(s, t, policies, columns[i]).Sensitive? then [columns[i].name] else [])
    ensures UnapprovedColumns(s, t, policies, columns[..i + 1]) ==
      UnapprovedColumns(s, t, policies, columns[..i])
        + (if StatusOf(s, t, policies, columns[i]).Unapproved? then [columns[i]] else [])
  {
    hide StatusOf;
    assert columns[..i + 1][..i] == columns[..i];
  }

  method CheckColumns(s: Settings, t: Tree, policies: map<string, Policy>, columns: seq<ColumnUse>)
    returns (sensitive: seq<string>, unapproved: seq<ColumnUse>)
    ensures sensitive == SensitiveNames(s, t, policies, columns)
    ensures unapproved == UnapprovedColumns(s, t, policies, columns)
  {
    hide SensitiveNames, UnapprovedColumns, AliasMap;
    sensitive, unapproved := [], [];
    var aliases := BuildAliasMap(t.tables);
    var ids := TableIds(t.tables);
    NoColumns(s, t, policies);
    for i := 0 to |columns|
      invariant sensitive == SensitiveNames(s, t, policies, columns[..i])
      invariant unapproved == UnapprovedColumns(s, t, policies, columns[..i])
    {
      OneMoreColumn(s, t, policies, columns, i);
      var column := columns[i];
      if column.name == "" || column.name in t.outputs { continue; }
      if column.name in s.forbiddenColumns {
        sensitive := sensitive + [column.name];
        continue;
      }
      var table := TableOf(aliases, ids, column);
      if table.None? {
        unapproved := unapproved + [column];
        continue;
      }
      var allowed := if table.value in policies then policies[table.value].allowedColumns else {};
      if allowed != {} && column.name !in allowed { unapproved := unapproved + [column]; }
    }
    assert columns[..|columns|] == columns;
  }

  method ValidateSql(s: Settings, w: World, sql: string, compiled: Option<seq<ColumnUse>>) returns (d: Decision)
    ensures d == Validate(s, w, sql, compiled)
  {
    hide HasWriteWord, ReadOnly, Trim, SensitiveNames, UnapprovedColumns, ApplyLimit, ExtractLimit, RowCap;
    var cleaned := Trim(sql);
    if cleaned == "" { return Blocked(NonEmptySql); }
    if HasWriteWord(cleaned) { return Blocked(KeywordDenylist); }
    if !ReadOnly(cleaned) { return Blocked(ReadonlyStatement); }
    var statements := w.parse(cleaned);
    if statements.None? { return Blocked(ParseTree); }
    if |statements.value| != 1 { return Blocked(SingleStatement); }
    var parsed := statements.value[0];
    if parsed.hasStar { return Blocked(SelectStar); }
    var ids := TableIds(parsed.tables);
    if ids == {} { return Blocked(TablePresence); }
    var illegal := ids - s.allowedTables;
    if illegal != {} { return Blocked(TableWhitelist(illegal)); }
    var missing := Unprotected(ids, w.policies);
    if missing != {} { return Blocked(AccessPolicy(missing)); }
    var sensitive, unapproved := CheckColumns(s, parsed, w.policies, compiled.GetOr(parsed.columns));
    if sensitive != [] { return Blocked(ForbiddenColumns(sensitive)); }
    if unapproved != [] { return Blocked(ColumnWhitelist(unapproved)); }
    assert forall r :: r in parsed.tables ==> r.id in ids && r.id !in missing;
    var rowLimit := RowCap(s, w.policies, parsed.tables);
    var requested := ExtractLimit(cleaned);
    if requested.None? {
      cleaned := ApplyLimit(cleaned, rowLimit);
    } else if requested.value > rowLimit {
      cleaned := ApplyLimit(cleaned, rowLimit);
    } else {
      rowLimit := requested.value;
    }
    if w.parse(cleaned).None? { return Blocked(PostLimitParseTree); }
    var cost := w.explain(cleaned);
    if cost.None? { return Blocked(ExplainPlan); }
    if cost.value > s.explainMaxCost { return Blocked(ExplainCost); }
    return Passed(Validated(cleaned, ids, rowLimit, cost.value));
  }

  // ---- Aliases ----

  /** The table goes by this name, as its alias or its own. */
  predicate GoesBy(t: TableRef, name: string) { name != "" && (t.alias == name || t.name == name) }

  predicate LastNamed(tables: seq<TableRef>, name: string, k: int) {
    0 <= k < |tables| && GoesBy(tables[k], name) && forall n :: k < n < |tables| ==> !GoesBy(tables[n], name)
  }

  /** A name stands for the last table that goes by it, and for none if no table does. */
  lemma {:induction false} AliasIsLastTable(tables: seq<TableRef>, name: string)
    ensures name in AliasMap(tables) ==>
      exists k :: LastNamed(tables, name, k) && AliasMap(tables)[name] == tables[k].id
    ensures name !in AliasMap(tables) ==> forall k :: 0 <= k < |tables| ==> !GoesBy(tables[k], name)
  {
    if tables != [] {
      var init, last := tables[..|tables| - 1], tables[|tables| - 1];
      AliasIsLastTable(init, name);
      assert forall n :: 0 <= n < |init| ==> tables[n] == init[n];
      if GoesBy(last, name) {
        assert LastNamed(tables, name, |tables| - 1);
      } else if name in AliasMap(init) {
        var k :| LastNamed(init, name, k) && AliasMap(init)[name] == init[k].id;
        assert LastNamed(tables, name, k) && AliasMap(tables)[name] == tables[k].id;
      }
    }
  }

  /** The table a column is taken to belong to: the last one that goes by its qualifier, or, if
      none does, the only one the statement names. */
  ghost predicate Meant(tables: seq<TableRef>, c: ColumnUse, id: string) {
    if exists k :: LastNamed(tables, c.qualifier, k) && tables[k].id != "" then
      exists k :: LastNamed(tables, c.qualifier, k) && tables[k].id == id
    else tables != [] && forall r :: r in tables ==> r.id == id
  }

  lemma OneLastNamed(tables: seq<TableRef>, name: string, j: int, k: int)
    requires LastNamed(tables, name, j) && LastNamed(tables, name, k)
    ensures j == k
  {
  }

  lemma OnlyTable(tables: seq<TableRef>, id: string)
    ensures TableIds(tables) == {id} <==> tables != [] && forall r :: r in tables ==> r.id == id
  {
    if tables != [] && forall r :: r in tables ==> r.id == id {
      assert tables[0] in tables;
      assert id in TableIds(tables);
    }
    if TableIds(tables) == {id} {
      forall r | r in tables ensures r.id == id { assert r.id in TableIds(tables); }
    }
  }

  lemma TableIsMeant(tables: seq<TableRef>, c: ColumnUse, id: string)
    ensures TableOf(AliasMap(tables), TableIds(tables), c) == Some(id) <==> Meant(tables, c, id)
  {
    hide AliasMap, TableIds;
    AliasIsLastTable(tables, c.qualifier);
    OnlyTable(tables, id);
    if c.qualifier in AliasMap(tables) {
      var k :| LastNamed(tables, c.qualifier, k) && AliasMap(tables)[c.qualifier] == tables[k].id;
      forall j | LastNamed(tables, c.qualifier, j) ensures j == k { OneLastNamed(tables, c.qualifier, j, k); }
    } else {
      forall j ensures !LastNamed(tables, c.qualifier, j) { NoneNamed(tables, c.qualifier, j); }
    }
    if |TableIds(tables)| == 1 { OnlyTable(tables, Only(TableIds(tables))); }
  }

  lemma NoneNamed(tables: seq<TableRef>, name: string, j: int)
    requires forall k :: 0 <= k < |tables| ==> !GoesBy(tables[k], name)
    ensures !LastNamed(tables, name, j)
  {
  }

  /** The exact condition for a column to be objected to: it is no output, and forbidden, or not
      taken to belong to a table whose policy allows it or allows every column. */
  lemma JudgedByItsTable(s: Settings, t: Tree, policies: map<string, Policy>, c: ColumnUse)
    ensures var status := StatusOf(s, t, policies, c);
      && (status.Ignored? <==> c.name == "" || c.name in t.outputs)
      && (status.Sensitive? <==> !status.Ignored? && c.name in s.forbiddenColumns)
      && (status.Unapproved? <==> !status.Ignored? && !status.Sensitive? && !exists id ::
            && Meant(t.tables, c, id)
            && (id in policies && policies[id].allowedColumns != {} ==> c.name in policies[id].allowedColumns))
  {
    hide AliasMap, TableIds, Meant, TableOf;
    forall id ensures TableOf(AliasMap(t.tables), TableIds(t.tables), c) == Some(id) <==> Meant(t.tables, c, id) {
      TableIsMeant(t.tables, c, id);
    }
  }

  /** So the columns that a statement over one table names without a qualifier pass, if its policy
      allows them and they are not forbidden. */
  lemma {:induction false} UnqualifiedPass(s: Settings, t: Tree, policies: map<string, Policy>, id: string,
    columns: seq<ColumnUse>)
    requires t.tables != [] && (forall r :: r in t.tables ==> r.id == id) && id in policies
    requires forall c :: c in columns ==>
      c.qualifier == "" && c.name in policies[id].allowedColumns && c.name !in s.forbiddenColumns
    ensures SensitiveNames(s, t, policies, columns) == [] && UnapprovedColumns(s, t, policies, columns) == []
  {
    hide StatusOf;
    if columns != [] {
      var init, last := columns[..|columns| - 1], columns[|columns| - 1];
      UnqualifiedPass(s, t, policies, id, init);
      UnqualifiedPasses(s, t, policies, id, last);
    }
  }

  lemma UnqualifiedPasses(s: Settings, t: Tree, policies: map<string, Policy>, id: string, c: ColumnUse)
    requires t.tables != [] && (forall r :: r in t.tables ==> r.id == id) && id in policies
    requires c.qualifier == "" && c.name in policies[id].allowedColumns && c.name !in s.forbiddenColumns
    ensures !StatusOf(s, t, policies, c).Sensitive? && !StatusOf(s, t, policies, c).Unapproved?
  {
    hide AliasMap, TableOf, StatusOf;
    JudgedByItsTable(s, t, policies, c);
    assert Meant(t.tables, c, id);
  }

  lemma AliasResolves(tables: seq<TableRef>, i: nat)
    requires i < |tables| && tables[i].alias != ""
    requires forall k :: 0 <= k < |tables| && GoesBy(tables[k], tables[i].alias) ==> tables[k].id == tables[i].id
    ensures tables[i].alias in AliasMap(tables) && AliasMap(tables)[tables[i].alias] == tables[i].id
  {
    assert GoesBy(tables[i], tables[i].alias);
    AliasIsLastTable(tables, tables[i].alias);
  }

  // ---- Words ----

  /** The words a statement may not have, by whole word and in either letter case. */
  lemma WriteWordsBlock(s: Settings, w: World, sql: string, compiled: Option<seq<ColumnUse>>, word: string, i: nat)
    requires word in {"drop", "delete", "update", "insert", "alter", "truncate", "create", "grant", "revoke", "copy",
      "merge", "call", "execute"}
    requires i + |word| <= |Trim(sql)| && Lower(Trim(sql)[i..i + |word|]) == word
    requires i > 0 ==> !IsWord(Trim(sql)[i - 1])
    requires i + |word| < |Trim(sql)| ==> !IsWord(Trim(sql)[i + |word|])
    ensures Validate(s, w, sql, compiled) == Blocked(KeywordDenylist)
  {
    hide Trim, IsWord, LowerChar, ReadOnly, ValidateTree;
    ListedWord(word);
    var text := Trim(sql);
    var found := text[i..i + |word|];
    assert word[0] == LowerChar(text[i]) && word[|word| - 1] == LowerChar(text[i + |word| - 1]) by {
      assert found[0] == text[i] && found[|word| - 1] == text[i + |word| - 1];
      assert Lower(found)[0] == LowerChar(found[0]) && Lower(found)[|word| - 1] == LowerChar(found[|word| - 1]);
    }
    LetterIsWord(text[i]);
    LetterIsWord(text[i + |word| - 1]);
    assert WordIs(text, word, i);
  }

  lemma LetterIsWord(c: char)
    requires IsLower(LowerChar(c))
    ensures IsWord(c)
  {
  }

  lemma ListedWord(word: string)
    requires word in {"drop", "delete", "update", "insert", "alter", "truncate", "create", "grant", "revoke", "copy",
      "merge", "call", "execute"}
    ensures word in WRITE_WORDS && |word| >= 4 && IsLower(word[0]) && IsLower(word[|word| - 1])
  {
  }

  // ---- Main results ----

  /** The validator does not object to the column: some output of the statement bears its name,
      or it is not forbidden and allowed for the table it is taken to belong to. */
  ghost predicate ColumnOk(s: Settings, t: Tree, policies: map<string, Policy>, c: ColumnUse) {
    || c.name == "" || c.name in t.outputs
    || (c.name !in s.forbiddenColumns && exists id ::
          && Meant(t.tables, c, id)
          && (id in policies && policies[id].allowedColumns != {} ==> c.name in policies[id].allowedColumns))
  }

  lemma OkForTable(s: Settings, t: Tree, policies: map<string, Policy>, c: ColumnUse, id: string)
    requires TableOf(AliasMap(t.tables), TableIds(t.tables), c) == Some(id)
    ensures ColumnOk(s, t, policies, c) <==>
      || c.name == "" || c.name in t.outputs
      || (c.name !in s.forbiddenColumns
          && (id in policies && policies[id].allowedColumns != {} ==> c.name in policies[id].allowedColumns))
  {
    hide AliasMap, TableIds, TableOf, Meant;
    forall other ensures Meant(t.tables, c, other) <==> other == id { TableIsMeant(t.tables, c, other); }
  }

  lemma {:induction false} ColumnsOk(s: Settings, t: Tree, policies: map<string, Policy>, columns: seq<ColumnUse>)
    ensures SensitiveNames(s, t, policies, columns) == [] && UnapprovedColumns(s, t, policies, columns) == []
      <==> forall c :: c in columns ==> ColumnOk(s, t, policies, c)
  {
    hide Meant, StatusOf;
    if columns != [] {
      var init, last := columns[..|columns| - 1], columns[|columns| - 1];
      ColumnsOk(s, t, policies, init);
      JudgedByItsTable(s, t, policies, last);
      assert columns == init + [last];
      assert ColumnOk(s, t, policies, last) <==>
        !StatusOf(s, t, policies, last).Sensitive? && !StatusOf(s, t, policies, last).Unapproved?;
    }
  }

  /** The row limit a statement runs under is the number its final text asks for, and no more
      than any of its tables' policies and the global maximum allow. Outside LIMIT clauses the
      text is the caller's. */
  lemma RowLimitHolds(sql: string, cap: nat)
    ensures var (limited, rowLimit) := WithRowLimit(sql, cap);
      && ExtractLimit(limited) == Some(rowLimit) && rowLimit <= cap
      && (rowLimit < cap ==> limited == sql)
      && (limited == sql || limited == ApplyLimit(sql, cap))
  {
    hide ExtractLimit, ApplyLimit;
    ExtractAfterApply(sql, cap);
  }

  ghost predicate Acceptable(s: Settings, w: World, sql: string, compiled: Option<seq<ColumnUse>>, t: Tree) {
    && sql != "" && !HasWriteWord(sql) && ReadOnly(sql)
    && w.parse(sql) == Some([t]) && !t.hasStar && t.tables != []
    && (forall r :: r in t.tables ==> r.id in s.allowedTables && r.id in w.policies)
    && (forall c :: c in compiled.GetOr(t.columns) ==> ColumnOk(s, t, w.policies, c))
  }

  lemma TreeDecision(s: Settings, w: World, text: string, t: Tree, compiled: Option<seq<ColumnUse>>)
    requires t.tables != [] && !t.hasStar
    requires forall r :: r in t.tables ==> r.id in s.allowedTables && r.id in w.policies
    requires forall c :: c in compiled.GetOr(t.columns) ==> ColumnOk(s, t, w.policies, c)
    ensures var (limited, rowLimit) := WithRowLimit(text, RowCap(s, w.policies, t.tables));
      ValidateTree(s, w, text, t, compiled) ==
        if w.parse(limited).None? then Blocked(PostLimitParseTree)
        else if w.explain(limited).None? then Blocked(ExplainPlan)
        else if w.explain(limited).value > s.explainMaxCost then Blocked(ExplainCost)
        else Passed(Validated(limited, TableIds(t.tables), rowLimit, w.explain(limited).value))
  {
    hide SensitiveNames, UnapprovedColumns, RowCap, ColumnOk, WithRowLimit;
    ColumnsOk(s, t, w.policies, compiled.GetOr(t.columns));
    assert t.tables[0].id in TableIds(t.tables);
  }

  lemma TreeAcceptable(s: Settings, w: World, text: string, t: Tree, compiled: Option<seq<ColumnUse>>)
    requires ValidateTree(s, w, text, t, compiled).Passed?
    ensures t.tables != [] && !t.hasStar
    ensures forall r :: r in t.tables ==> r.id in s.allowedTables && r.id in w.policies
    ensures forall c :: c in compiled.GetOr(t.columns) ==> ColumnOk(s, t, w.policies, c)
  {
    hide SensitiveNames, UnapprovedColumns, RowCap, ColumnOk, WithRowLimit;
    ColumnsOk(s, t, w.policies, compiled.GetOr(t.columns));
    assert forall r :: r in t.tables ==>
      r.id in TableIds(t.tables) && r.id !in Unprotected(TableIds(t.tables), w.policies);
  }

  /** What passing guarantees: one read-only statement over whitelisted tables with policies and
      no column objected to, and a final text that is the caller's with a row limit that every
      policy allows and that reads back as the one recorded. */
  lemma PassedMeans(s: Settings, w: World, sql: string, compiled: Option<seq<ColumnUse>>)
    returns (t: Tree)
    requires Validate(s, w, sql, compiled).Passed?
    ensures var v := Validate(s, w, sql, compiled).validated;
      && Acceptable(s, w, Trim(sql), compiled, t)
      && v.tables == TableIds(t.tables)
      && ExtractLimit(v.sql) == Some(v.rowLimit) && v.rowLimit <= s.maxResultRows
      && (forall r :: r in t.tables ==> v.rowLimit <= w.policies[r.id].rowLimit)
      && (v.sql == Trim(sql) || v.sql == ApplyLimit(Trim(sql), v.rowLimit))
      && w.parse(v.sql).Some? && w.explain(v.sql) == Some(v.explainCost) && v.explainCost <= s.explainMaxCost
  {
    hide HasWriteWord, ReadOnly, Trim, SensitiveNames, UnapprovedColumns, ApplyLimit, ExtractLimit, RowCap, ColumnOk;
    hide TableIds;
    var text := Trim(sql);
    t := w.parse(text).value[0];
    assert w.parse(text).value == [t];
    TreeAcceptable(s, w, text, t, compiled);
    TreeDecision(s, w, text, t, compiled);
    RowLimitHolds(text, RowCap(s, w.policies, t.tables));
  }

  /** The text parses and EXPLAIN finds it cheap enough. */
  predicate Affordable(s: Settings, w: World, text: string) {
    w.parse(text).Some? && w.explain(text).Some? && w.explain(text).value <= s.explainMaxCost
  }

  /** An acceptable statement passes exactly when its limited form parses and is cheap enough. */
  lemma AcceptablePasses(s: Settings, w: World, sql: string, compiled: Option<seq<ColumnUse>>, t: Tree)
    requires Acceptable(s, w, Trim(sql), compiled, t)
    ensures var d, limited := Validate(s, w, sql, compiled), WithRowLimit(Trim(sql), RowCap(s, w.policies, t.tables));
      && (d.Passed? <==> Affordable(s, w, limited.0))
      && (d.Passed? ==> d.validated.sql == limited.0 && d.validated.rowLimit == limited.1)
  {
    hide HasWriteWord, ReadOnly, Trim, SensitiveNames, UnapprovedColumns, RowCap, ColumnOk, WithRowLimit, TableIds;
    TreeDecision(s, w, Trim(sql), t, compiled);
  }
}
