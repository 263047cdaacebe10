/** The cache key of a statement: namespace, role and the statement's normal form. The key
    text is kept as it is, SHA-256 being taken as injective. */
module Fingerprint {
  import opened Wrappers
  import opened AsciiText
  import opened LimitText

  /** Every run of whitespace becomes one space. */
  function Collapse(t: string): string
    decreases |t|
  {
    if t == "" then ""
    else if IsSpace(t[0]) then " " + Collapse(t[SpaceRun(t)..])
    else [t[0]] + Collapse(t[1..])
  }

  function Normalize(sql: string): string { Lower(Collapse(Trim(sql))) }

  function Key(namespace: string, role: string, sql: string): string {
    namespace + "|" + Lower(Strip(role)) + "|" + Normalize(sql)
  }

  // ---- Lower-casing keeps the limit ----

  lemma LowerKeepsMatch(prev: bool, t: string)
    ensures MatchHere(prev, Lower(t)) == MatchHere(prev, t)
  {
    var u := Lower(t);
    if |t| >= 5 {
      assert Lower(u[..5]) == Lower(t[..5]);
    }
    forall k: nat, j: nat | 5 < k < j <= |t|
      ensures HeadMatch(prev, u, k, j) <==> HeadMatch(prev, t, k, j)
    {
      assert forall i :: 0 <= i < k - 5 ==> u[5..k][i] == LowerChar(t[5..k][i]);
      assert forall i :: 0 <= i < j - k ==> u[k..j][i] == LowerChar(t[k..j][i]);
    }
    SameMatches(prev, t, u);
  }

  lemma SameMatches(prev: bool, t: string, u: string)
    requires |t| == |u|
    requires forall k: nat, j: nat | 5 < k < j <= |t| :: HeadMatch(prev, u, k, j) <==> HeadMatch(prev, t, k, j)
    ensures MatchHere(prev, u) == MatchHere(prev, t)
  {
    if MatchHere(prev, u).Some? {
      var (k, j) := MatchHere(prev, u).value;
      MatchHereFindsHeadMatch(prev, t, k, j);
    } else if MatchHere(prev, t).Some? {
      var (k, j) := MatchHere(prev, t).value;
      MatchHereFindsHeadMatch(prev, u, k, j);
    }
  }

  lemma DigitsAreLower(w: string)
    requires AllDigit(w)
    ensures Lower(w) == w
  {
  }

  lemma {:induction false} LowerKeepsLimit(prev: bool, t: string)
    ensures Extract(prev, Lower(t)) == Extract(prev, t)
    decreases |t|
  {
    LowerKeepsMatch(prev, t);
    match MatchHere(prev, t) {
      case Some((k, j)) =>
        DigitsAreLower(t[k..j]);
        assert Lower(t)[k..j] == Lower(t[k..j]);
      case None =>
        if t != "" {
          assert Lower(t)[1..] == Lower(t[1..]);
          LowerKeepsLimit(IsWord(t[0]), t[1..]);
        }
    }
  }

  // ---- Collapsing whitespace keeps the limit ----

  predicate NoSpace(w: string) { forall i :: 0 <= i < |w| ==> !IsSpace(w[i]) }

  lemma HeadNotSpace(t: string, m: nat)
    requires m > 0
    requires (m <= |t| && NoSpace(t[..m])) || (m <= |Collapse(t)| && NoSpace(Collapse(t)[..m]))
    ensures t != "" && !IsSpace(t[0])
  {
    if m <= |t| && NoSpace(t[..m]) {
      assert !IsSpace(t[..m][0]);
    } else {
      assert !IsSpace(Collapse(t)[..m][0]);
    }
  }

  lemma CollapseStep(t: string)
    requires t != "" && !IsSpace(t[0])
    ensures Collapse(t) == [t[0]] + Collapse(t[1..])
  {
  }

  /** Text without whitespace is kept, character by character. */
  lemma {:induction false} CollapseKeepsHead(t: string, m: nat)
    requires (m <= |t| && NoSpace(t[..m])) || (m <= |Collapse(t)| && NoSpace(Collapse(t)[..m]))
    ensures m <= |t| && m <= |Collapse(t)| && Collapse(t)[..m] == t[..m] && Collapse(t)[m..] == Collapse(t[m..])
  {
    hide IsSpace, SpaceRun, Collapse;
    if m > 0 {
      HeadNotSpace(t, m);
      var u := Collapse(t[1..]);
      CollapseStep(t);
      if m <= |t| && NoSpace(t[..m]) {
        assert t[1..][..m - 1] == t[..m][1..];
      } else {
        assert u[..m - 1] == Collapse(t)[..m][1..];
      }
      CollapseKeepsHead(t[1..], m - 1);
      assert t[m..] == t[1..][m - 1..];
      assert t[..m] == [t[0]] + t[1..][..m - 1];
    } else {
      assert t[0..] == t && Collapse(t)[0..] == Collapse(t);
    }
  }

  lemma CollapseSpaces(u: string)
    ensures var n := SpaceRun(u);
      SpaceRun(Collapse(u)) == (if n == 0 then 0 else 1) && LStrip(Collapse(u)) == Collapse(u[n..])
  {
  }

  lemma CollapseDigits(v: string)
    ensures var d := DigitRun(v);
      && DigitRun(Collapse(v)) == d && d <= |Collapse(v)| && Collapse(v)[..d] == v[..d]
      && WordAt(Collapse(v), d) == WordAt(v, d)
  {
    var d := DigitRun(v);
    CollapseKeepsHead(v, d);
    var rest := Collapse(v)[d..];
    assert rest == Collapse(v[d..]);
    assert d < |v| ==> rest != "" && rest[0] == if IsSpace(v[d]) then ' ' else v[d];
    assert d < |Collapse(v)| ==> rest[0] == Collapse(v)[d];
    DigitRunExact(Collapse(v), d);
  }

  function MatchedNumber(prev: bool, t: string): Option<string> {
    var m := MatchHere(prev, t);
    if m == None then None else Some(t[m.value.0..m.value.1])
  }

  lemma CollapseKeepsMatch(prev: bool, t: string)
    ensures MatchedNumber(prev, t) == MatchedNumber(prev, Collapse(t))
  {
    var c := Collapse(t);
    if |t| >= 5 && Lower(t[..5]) == "limit" {
      LimitHasNoSpace(t[..5]);
      CollapseKeepsHead(t, 5);
      MatchFromRuns(prev, t);
      MatchFromRuns(prev, c);
      CollapseSpaces(t[5..]);
      CollapseDigits(LStrip(t[5..]));
    } else if |c| >= 5 && Lower(c[..5]) == "limit" {
      LimitHasNoSpace(c[..5]);
      CollapseKeepsHead(t, 5);
    }
  }

  function NumberAfterSpaces(u: string): Option<string> {
    var v := LStrip(u);
    var d := DigitRun(v);
    if SpaceRun(u) == 0 || d == 0 || WordAt(v, d) then None else Some(v[..d])
  }

  lemma MatchFromRuns(prev: bool, t: string)
    requires |t| >= 5 && Lower(t[..5]) == "limit"
    ensures MatchedNumber(prev, t) == if prev then None else NumberAfterSpaces(t[5..])
  {
    hide HeadMatch, Lower, IsSpace, IsDigit, IsWord;
    var u := t[5..];
    var k := 5 + SpaceRun(u);
    var v := LStrip(u);
    assert t[k..] == v;
    assert t[k..k + DigitRun(v)] == v[..DigitRun(v)];
    assert WordAt(t, k + DigitRun(v)) == WordAt(v, DigitRun(v));
  }

  lemma LimitHasNoSpace(w: string)
    requires |w| == 5 && Lower(w) == "limit"
    ensures NoSpace(w)
  {
  }

  lemma {:induction false} LeadingSpacesKeepLimit(prev: bool, t: string)
    requires t != "" && IsSpace(t[0])
    ensures Extract(prev, t) == Extract(false, t[SpaceRun(t)..])
    decreases |t|
  {
    hide MatchHere;
    NoMatchAtSpace(prev, t);
    if |t| > 1 && IsSpace(t[1]) {
      LeadingSpacesKeepLimit(false, t[1..]);
      assert t[1..][SpaceRun(t[1..])..] == t[SpaceRun(t)..];
    } else {
      assert SpaceRun(t[1..]) == 0;
    }
  }

  lemma NoMatchAtSpace(prev: bool, t: string)
    requires t != "" && IsSpace(t[0])
    ensures MatchHere(prev, t) == None
  {
    NoMatchAtNonWord(prev, t);
  }

  lemma {:induction false} CollapseKeepsLimit(prev: bool, t: string)
    ensures Extract(prev, Collapse(t)) == Extract(prev, t)
    decreases |t|
  {
    if t == "" {
    } else if IsSpace(t[0]) {
      var rest := t[SpaceRun(t)..];
      LeadingSpacesKeepLimit(prev, t);
      NoMatchAtSpace(prev, Collapse(t));
      assert Collapse(t)[1..] == Collapse(rest);
      CollapseKeepsLimit(false, rest);
    } else {
      CollapseKeepsMatch(prev, t);
      assert Collapse(t)[1..] == Collapse(t[1..]);
      CollapseKeepsLimit(IsWord(t[0]), t[1..]);
    }
  }

  // ---- Trimming keeps the limit ----

  lemma {:induction false} NoLimitWithoutWords(t: string)
    requires NoWord(t)
    ensures FirstLimit(Scan(false, t)) == None
    decreases |t|
  {
    if t != "" {
      NoMatchAtNonWord(false, t);
      NoLimitWithoutWords(t[1..]);
    }
  }

  lemma TailKeepsLimit(t: string, tail: string)
    requires NoWord(tail)
    ensures ExtractLimit(t + tail) == ExtractLimit(t)
  {
    if tail == "" {
      assert t + tail == t;
    } else {
      assert Inert(tail);
      ScanAppend(false, t, tail);
      ExtractIsFirstLimit(false, t + tail);
      ExtractIsFirstLimit(false, t);
      NoLimitWithoutWords(tail);
      LimitText.PrintAppend(Scan(false, t), Scan(false, tail), 0);
    }
  }

  lemma LStripKeepsLimit(sql: string)
    ensures ExtractLimit(LStrip(sql)) == ExtractLimit(sql)
  {
    hide Extract;
    if SpaceRun(sql) > 0 {
      assert IsSpace(sql[..SpaceRun(sql)][0]);
      LeadingSpacesKeepLimit(false, sql);
    } else {
      assert LStrip(sql) == sql;
    }
  }

  lemma RStripKeepsLimit(s: string, drop: char -> bool)
    requires forall c :: drop(c) ==> !IsWord(c)
    ensures ExtractLimit(RStrip(s, drop)) == ExtractLimit(s)
  {
    hide ExtractLimit, RStripLength, IsWord;
    var kept := RStrip(s, drop);
    assert s == kept + s[|kept|..];
    TailKeepsLimit(kept, s[|kept|..]);
  }

  lemma TrimKeepsLimit(sql: string)
    ensures ExtractLimit(Trim(sql)) == ExtractLimit(sql)
  {
    hide ExtractLimit, LStrip, RStrip;
    LStripKeepsLimit(sql);
    RStripKeepsLimit(LStrip(sql), IsSpace);
    RStripKeepsLimit(RStrip(LStrip(sql), IsSpace), IsSemicolon);
  }

  /** Normalising a statement for the key does not change the limit the validator reads. */
  lemma NormalizeKeepsLimit(sql: string)
    ensures ExtractLimit(Normalize(sql)) == ExtractLimit(sql)
  {
    TrimKeepsLimit(sql);
    CollapseKeepsLimit(false, Trim(sql));
    LowerKeepsLimit(false, Collapse(Trim(sql)));
  }

  // ---- What the key identifies ----

  predicate BarFree(s: string) { '|' !in s }

  /** Keys of one namespace agree exactly when the roles and the normal forms do, provided
      role names contain no bar. */
  lemma KeyDeterminesParts(namespace: string, role: string, sql: string, role': string, sql': string)
    requires BarFree(Lower(Strip(role))) && BarFree(Lower(Strip(role')))
    ensures Key(namespace, role, sql) == Key(namespace, role', sql')
      <==> Lower(Strip(role)) == Lower(Strip(role')) && Normalize(sql) == Normalize(sql')
  {
    hide Normalize, Lower, Strip;
    var r, r', n, n' := Lower(Strip(role)), Lower(Strip(role')), Normalize(sql), Normalize(sql');
    var k, k' := Key(namespace, role, sql), Key(namespace, role', sql');
    if k == k' {
      var p := |namespace| + 1;
      assert k[p..] == r + "|" + n && k'[p..] == r' + "|" + n';
      BarSplits(r, n, r', n');
    }
  }

  lemma BarSplits(a: string, b: string, a': string, b': string)
    requires BarFree(a) && BarFree(a') && a + "|" + b == a' + "|" + b'
    ensures a == a' && b == b'
  {
    var s, s' := a + "|" + b, a' + "|" + b';
    assert s[|a|] == '|' && s'[|a'|] == '|';
    assert forall i :: 0 <= i < |a| ==> s[i] == a[i] != '|';
    assert forall i :: 0 <= i < |a'| ==> s'[i] == a'[i] != '|';
    assert |a| == |a'|;
    assert a == s[..|a|] && a' == s'[..|a'|];
    assert b == s[|a| + 1..] && b' == s'[|a'| + 1..];
  }

  /** Two statements under one key carry the same limit, whatever the role. */
  lemma KeyDeterminesLimit(namespace: string, role: string, sql: string, role': string, sql': string)
    requires BarFree(Lower(Strip(role))) && BarFree(Lower(Strip(role')))
    requires Key(namespace, role, sql) == Key(namespace, role', sql')
    ensures ExtractLimit(sql) == ExtractLimit(sql')
  {
    KeyDeterminesParts(namespace, role, sql, role', sql');
    NormalizeKeepsLimit(sql);
    NormalizeKeepsLimit(sql');
  }

  // ---- What the key forgets ----

  /** Where a reader of SQL is: in code, perhaps just after a text literal, a dash or a slash;
      in a text literal, a quoted identifier, a comment up to the line's end, or a block
      comment, which nests. */
  datatype Mode = Code | Closed | Dash | Slash | Single | Double | Line | Block(depth: nat, last: char)

  predicate InCode(m: Mode) { m.Code? || m.Closed? || m.Dash? || m.Slash? }

  predicate IsNewline(c: char) { c == '\n' || c == '\r' }

  function ModeAfter(m: Mode, c: char): Mode {
    match m
    case Single => if c == '\'' then Closed else Single
    case Double => if c == '"' then Code else Double
    case Line => if IsNewline(c) then Code else Line
    case Block(depth, last) =>
      if last == '*' && c == '/' then (if depth == 0 then Code else Block(depth - 1, ' '))
      else if last == '/' && c == '*' then Block(depth + 1, ' ')
      else Block(depth, c)
    case _ =>
      if c == '\'' then Single
      else if c == '"' then Double
      else if c == '-' then (if m.Dash? then Line else Dash)
      else if c == '*' && m.Slash? then Block(0, ' ')
      else if c == '/' then Slash
      else if m.Closed? && IsSpace(c) then Closed
      else Code
  }

  /** What is kept of one character. In code, letter case and spacing do not matter, except
      that a line break joins two text literals; elsewhere every character does. */
  function KeptOf(m: Mode, run: bool, c: char): string {
    if !InCode(m) then [c]
    else if IsSpace(c) then (if m.Closed? && IsNewline(c) then [c] else if run then "" else " ")
    else [LowerChar(c)]
  }

  function KeptFrom(m: Mode, run: bool, t: string): string
    decreases |t|
  {
    if t == "" then "" else KeptOf(m, run, t[0]) + KeptFrom(ModeAfter(m, t[0]), InCode(m) && IsSpace(t[0]), t[1..])
  }

  /** A backslash or a dollar sign may begin another kind of quoting, and PostgreSQL takes the
      rarer blanks of Python for no blanks. */
  predicate Odd(c: char) { c == '\\' || c == '$' || (IsSpace(c) && c !in {' ', '\t', '\n', '\r', 12 as char}) }

  /** Where there is no such character; else all is kept. */
  predicate OrdinaryQuotes(sql: string) { forall c :: c in sql ==> !Odd(c) }

  /** The statement up to what cannot matter: statements that agree on it mean the same. */
  function Canonical(sql: string): string {
    if OrdinaryQuotes(sql) then KeptFrom(Code, false, Trim(sql)) else sql
  }

  /** Collapsing one character at a time; `run` says whether a space was just written. */
  function CollapseFrom(run: bool, t: string): string
    decreases |t|
  {
    if t == "" then ""
    else if IsSpace(t[0]) then (if run then "" else " ") + CollapseFrom(true, t[1..])
    else [t[0]] + CollapseFrom(false, t[1..])
  }

  lemma {:induction false} CollapseRunSkipsSpaces(t: string)
    ensures CollapseFrom(true, t) == CollapseFrom(true, t[SpaceRun(t)..])
  {
    if t != "" && IsSpace(t[0]) {
      CollapseRunSkipsSpaces(t[1..]);
      assert t[1..][SpaceRun(t[1..])..] == t[SpaceRun(t)..];
    } else {
      assert t[0..] == t;
    }
  }

  lemma {:induction false} CollapseIsCollapseFrom(t: string)
    ensures Collapse(t) == CollapseFrom(false, t)
    ensures t != "" && !IsSpace(t[0]) ==> CollapseFrom(true, t) == Collapse(t)
    decreases |t|
  {
    if t == "" {
    } else if IsSpace(t[0]) {
      var rest := t[SpaceRun(t)..];
      CollapseIsCollapseFrom(rest);
      CollapseRunSkipsSpaces(t[1..]);
      assert t[1..][SpaceRun(t[1..])..] == rest;
    } else {
      CollapseIsCollapseFrom(t[1..]);
    }
  }

  lemma LowerAppend(a: string, b: string)
    ensures Lower(a + b) == Lower(a) + Lower(b)
  {
  }

  /** What is kept still determines the normal form. */
  lemma {:induction false} KeptFinerThanNormalForm(run: bool, kept: bool, m: Mode, t: string)
    requires kept ==> run
    ensures Lower(CollapseFrom(run, KeptFrom(m, kept, t))) == Lower(CollapseFrom(run, t))
    decreases |t|
  {
    if t != "" {
      var c, rest := t[0], KeptFrom(ModeAfter(m, t[0]), InCode(m) && IsSpace(t[0]), t[1..]);
      assert t == [c] + t[1..];
      KeptFinerThanNormalForm(IsSpace(c), InCode(m) && IsSpace(c), ModeAfter(m, c), t[1..]);
      if KeptOf(m, kept, c) == "" {
        assert KeptFrom(m, kept, t) == rest;
      } else {
        SameStep(run, KeptOf(m, kept, c)[0], rest, c, t[1..]);
      }
    }
  }

  lemma SameStep(run: bool, c: char, x: string, d: char, y: string)
    requires IsSpace(c) == IsSpace(d) && (!IsSpace(c) ==> LowerChar(c) == LowerChar(d))
    requires Lower(CollapseFrom(IsSpace(c), x)) == Lower(CollapseFrom(IsSpace(c), y))
    ensures Lower(CollapseFrom(run, [c] + x)) == Lower(CollapseFrom(run, [d] + y))
  {
    var head := if IsSpace(c) then (if run then "" else " ") else [c];
    var head' := if IsSpace(d) then (if run then "" else " ") else [d];
    assert ([c] + x)[1..] == x && ([d] + y)[1..] == y;
    LowerAppend(head, CollapseFrom(IsSpace(c), x));
    LowerAppend(head', CollapseFrom(IsSpace(c), y));
    assert Lower(head) == Lower(head');
  }

  lemma KeptKeepsMarks(m: Mode, run: bool, t: string)
    ensures forall x :: x in KeptFrom(m, run, t) && Odd(x) ==> x in t
    decreases |t|
  {
    if t != "" { KeptKeepsMarks(ModeAfter(m, t[0]), InCode(m) && IsSpace(t[0]), t[1..]); }
  }

  lemma TrimIsPart(sql: string)
    ensures forall x :: x in Trim(sql) ==> x in sql
  {
  }

  /** The key never separates two statements that mean the same. */
  lemma CanonicalDeterminesNormalForm(sql: string, sql': string)
    requires Canonical(sql) == Canonical(sql')
    ensures Normalize(sql) == Normalize(sql')
  {
    if OrdinaryQuotes(sql) && OrdinaryQuotes(sql') {
      KeptFinerThanNormalForm(false, false, Code, Trim(sql));
      KeptFinerThanNormalForm(false, false, Code, Trim(sql'));
      CollapseIsCollapseFrom(Trim(sql));
      CollapseIsCollapseFrom(Trim(sql'));
    } else if OrdinaryQuotes(sql) || OrdinaryQuotes(sql') {
      KeptKeepsMarks(Code, false, Trim(sql));
      KeptKeepsMarks(Code, false, Trim(sql'));
      TrimIsPart(sql);
      TrimIsPart(sql');
    }
  }

  // ---- Collisions ----

  predicate SameUpToCase(a: string, b: string) {
    |a| == |b| && forall i :: 0 <= i < |a| ==> LowerChar(a[i]) == LowerChar(b[i])
  }

  lemma {:induction false} CaseKeepsSpaceRun(a: string, b: string)
    requires SameUpToCase(a, b)
    ensures SpaceRun(a) == SpaceRun(b)
  {
    if a != "" { CaseKeepsSpaceRun(a[1..], b[1..]); }
  }

  lemma {:induction false} CaseKeepsRStrip(a: string, b: string, drop: char -> bool)
    requires SameUpToCase(a, b) && forall c, d :: LowerChar(c) == LowerChar(d) ==> drop(c) == drop(d)
    ensures RStripLength(a, drop) == RStripLength(b, drop)
  {
    if a != "" { CaseKeepsRStrip(a[..|a| - 1], b[..|b| - 1], drop); }
  }

  lemma {:induction false} CaseKeepsCollapse(run: bool, a: string, b: string)
    requires SameUpToCase(a, b)
    ensures Lower(CollapseFrom(run, a)) == Lower(CollapseFrom(run, b))
    decreases |a|
  {
    if a != "" {
      CaseKeepsCollapse(IsSpace(a[0]), a[1..], b[1..]);
      SameStep(run, a[0], a[1..], b[0], b[1..]);
      assert a == [a[0]] + a[1..] && b == [b[0]] + b[1..];
    }
  }

  lemma CaseKeepsTrim(a: string, b: string)
    requires SameUpToCase(a, b)
    ensures SameUpToCase(Trim(a), Trim(b))
  {
    hide SpaceRun, RStripLength, LowerChar, IsSpace, IsSemicolon;
    CaseKeepsSpaceRun(a, b);
    var x, y := LStrip(a), LStrip(b);
    CaseKeepsClasses();
    CaseKeepsRStrip(x, y, IsSpace);
    CaseKeepsRStrip(Strip(a), Strip(b), IsSemicolon);
  }

  lemma CaseKeepsClasses()
    ensures forall c, d :: LowerChar(c) == LowerChar(d) ==> IsSpace(c) == IsSpace(d) && IsSemicolon(c) == IsSemicolon(d)
  {
  }

  /** Letter case is forgotten everywhere, inside literals and quoted identifiers too. */
  lemma NormalFormForgetsCase(a: string, b: string)
    requires SameUpToCase(a, b)
    ensures Normalize(a) == Normalize(b)
  {
    hide Trim, SameUpToCase, Collapse, CollapseFrom;
    CaseKeepsTrim(a, b);
    CaseKeepsCollapse(false, Trim(a), Trim(b));
    CollapseIsCollapseFrom(Trim(a));
    CollapseIsCollapseFrom(Trim(b));
  }

  lemma {:induction false} OneSpaceForRun(run: bool, w: string, tail: string)
    requires w != "" && AllSpace(w)
    ensures CollapseFrom(run, w + tail) == (if run then "" else " ") + CollapseFrom(true, tail)
    decreases |w|
  {
    assert (w + tail)[1..] == w[1..] + tail;
    if |w| > 1 { OneSpaceForRun(true, w[1..], tail); } else { assert w[1..] + tail == tail; }
  }

  lemma {:induction false} SpacesCollapse(run: bool, head: string, w: string, w': string, tail: string)
    requires w != "" && AllSpace(w) && w' != "" && AllSpace(w')
    ensures CollapseFrom(run, head + w + tail) == CollapseFrom(run, head + w' + tail)
    decreases |head|
  {
    if head == "" {
      OneSpaceForRun(run, w, tail);
      OneSpaceForRun(run, w', tail);
      assert head + w + tail == w + tail && head + w' + tail == w' + tail;
    } else {
      assert (head + w + tail)[1..] == head[1..] + w + tail && (head + w' + tail)[1..] == head[1..] + w' + tail;
      SpacesCollapse(IsSpace(head[0]), head[1..], w, w', tail);
    }
  }

  predicate Tight(s: string) { s != "" && !IsSpace(s[0]) && !IsSpace(s[|s| - 1]) && s[|s| - 1] != ';' }

  lemma TightIsTrimmed(s: string)
    requires Tight(s)
    ensures Trim(s) == s
  {
    StripTight(s);
  }

  /** So is spacing, inside literals too, and the line break that ends a comment. */
  lemma NormalFormForgetsSpacing(head: string, w: string, w': string, tail: string)
    requires w != "" && AllSpace(w) && w' != "" && AllSpace(w')
    requires Tight(head + w + tail) && Tight(head + w' + tail)
    ensures Normalize(head + w + tail) == Normalize(head + w' + tail)
  {
    TightIsTrimmed(head + w + tail);
    TightIsTrimmed(head + w' + tail);
    SpacesCollapse(false, head, w, w', tail);
    CollapseIsCollapseFrom(head + w + tail);
    CollapseIsCollapseFrom(head + w' + tail);
  }

  // ---- Statements with one key ----

  const ASKED := "SELECT status_order" + " FROM fact.orders" + " WHERE status_order = "

  /** A statement asking for one value. */
  function Asking(value: string): string { ASKED + "'" + value + "'" + " " + LimitClause(5) }

  /** Nothing here begins a literal, a quoted identifier or a comment. */
  predicate PlainCode(s: string) {
    forall c :: c in s ==> c !in {'\'', '"', '-', '/'} && !Odd(c)
  }

  lemma PlainStep(run: bool, t: string)
    requires t != "" && PlainCode([t[0]])
    ensures KeptFrom(Code, run, t) == KeptOf(Code, run, t[0]) + KeptFrom(Code, IsSpace(t[0]), t[1..])
  {
    assert t[0] in [t[0]];
  }

  lemma {:induction false} KeptInCode(run: bool, head: string, tail: string)
    requires PlainCode(head)
    ensures KeptFrom(Code, run, head + tail)
         == KeptFrom(Code, run, head) + KeptFrom(Code, if head == "" then run else IsSpace(head[|head| - 1]), tail)
    decreases |head|
  {
    hide KeptFrom, KeptOf, IsSpace;
    if head == "" {
      KeptNothing(run);
      assert head + tail == tail;
    } else {
      assert (head + tail)[1..] == head[1..] + tail && (head + tail)[0] == head[0] && head[0] in head;
      assert forall c :: c in head[1..] ==> c in head;
      PlainStep(run, head);
      PlainStep(run, head + tail);
      KeptInCode(IsSpace(head[0]), head[1..], tail);
    }
  }

  lemma KeptNothing(run: bool)
    ensures KeptFrom(Code, run, "") == ""
  {
  }

  lemma {:induction false} KeptInLiteral(value: string, tail: string)
    requires '\'' !in value
    ensures KeptFrom(Single, false, value + tail) == value + KeptFrom(Single, false, tail)
    decreases |value|
  {
    if value == "" {
      assert value + tail == tail;
    } else {
      assert (value + tail)[1..] == value[1..] + tail && value[0] in value;
      KeptInLiteral(value[1..], tail);
      assert value == [value[0]] + value[1..];
    }
  }

  lemma AskedIsPlain()
    ensures PlainValue(ASKED) && ASKED[0] == 'S' && ASKED[|ASKED| - 1] == ' '
  {
    AskedParts();
    forall c | c in ASKED ensures c !in {'\'', '"', '-', '/'} && !Odd(c) && LowerChar(c) != 'i' {
      assert c in "SELECT status_order" || c in " FROM fact.orders" || c in " WHERE status_order = ";
    }
  }

  lemma AskedParts()
    ensures PlainValue("SELECT status_order") && PlainValue(" FROM fact.orders") && PlainValue(" WHERE status_order = ")
  {
    hide PlainValue;
    AskedColumn();
    AskedTable();
    AskedWhere();
  }

  lemma BothPlain(a: string, b: string)
    requires PlainValue(a) && PlainValue(b)
    ensures PlainValue(a + b)
  {
  }

  lemma AskedColumn()
    ensures PlainValue("SELECT status_order")
  {
    hide PlainValue;
    assert PlainValue("SELECT ") && PlainValue("status_order") by { ColumnWords(); }
    BothPlain("SELECT ", "status_order");
    assert "SELECT " + "status_order" == "SELECT status_order";
  }

  lemma ColumnWords()
    ensures PlainValue("SELECT ") && PlainValue("status_order")
  {
  }

  lemma AskedTable()
    ensures PlainValue(" FROM fact.orders")
  {
  }

  lemma AskedWhere()
    ensures PlainValue(" WHERE status_order = ")
  {
    hide PlainValue;
    ColumnWords();
    WhereWords();
    BothPlain(" WHERE ", "status_order");
    BothPlain(" WHERE " + "status_order", " = ");
    assert " WHERE " + "status_order" + " = " == " WHERE status_order = ";
  }

  lemma WhereWords()
    ensures PlainValue(" WHERE ") && PlainValue(" = ")
  {
  }

  predicate PlainValue(v: string) { PlainCode(v) && forall c :: c in v ==> LowerChar(c) != 'i' }

  lemma MatchHasI(prev: bool, t: string)
    requires MatchHere(prev, t).Some?
    ensures exists c :: c in t && LowerChar(c) == 'i'
  {
    assert LowerChar(t[1]) == Lower(t[..5])[1];
  }

  lemma {:induction false} NoLimitWithoutI(prev: bool, t: string)
    requires forall c :: c in t ==> LowerChar(c) != 'i'
    ensures Extract(prev, t) == None
    decreases |t|
  {
    hide MatchHere;
    if MatchHere(prev, t).Some? {
      MatchHasI(prev, t);
      assert false;
    } else if t != "" {
      assert forall c :: c in t[1..] ==> c in t;
      NoLimitWithoutI(IsWord(t[0]), t[1..]);
    }
  }

  lemma LimitFive()
    ensures LimitClause(5) == "LIMIT 5"
  {
  }

  lemma AskingLimit(value: string)
    requires PlainValue(value)
    ensures ExtractLimit(Asking(value)) == Some(5)
  {
    hide ExtractLimit, LimitClause, LowerChar, PlainCode;
    AskedIsPlain();
    var body := ASKED + "'" + value + "'";
    forall c | c in body ensures LowerChar(c) != 'i' { QuoteIsNoLetter(c); }
    NoLimitInBody(body);
    RenderedLimitRead(body, ' ', 5);
    assert Asking(value) == body + [' '] + LimitClause(5);
  }

  lemma QuoteIsNoLetter(c: char)
    ensures c == '\'' ==> LowerChar(c) != 'i'
  {
  }

  lemma NoLimitInBody(body: string)
    requires forall c :: c in body ==> LowerChar(c) != 'i'
    ensures ExtractLimit(body) == None
  {
    hide Extract;
    NoLimitWithoutI(false, body);
  }

  lemma AskingPlain(value: string)
    requires PlainValue(value)
    ensures OrdinaryQuotes(Asking(value)) && Trim(Asking(value)) == Asking(value)
  {
    hide LimitClause, Trim, LowerChar;
    AskedIsPlain();
    LimitFive();
    var s := Asking(value);
    assert s == ASKED + "'" + value + "' LIMIT 5";
    assert s[0] == 'S' && s[|s| - 1] == '5';
    assert PlainCode(" LIMIT 5") && !Odd('\'');
    forall c | c in s ensures !Odd(c) { assert c in ASKED || c in value || c in "'" || c in " LIMIT 5"; }
    TightIsTrimmed(s);
  }

  const ASKED_END := "' LIMIT 5"

  /** Its canonical form keeps the value asked for. */
  lemma AskingKeepsValue(value: string)
    requires PlainValue(value)
    ensures Canonical(Asking(value)) == KeptFrom(Code, false, ASKED) + "'" + value + KeptFrom(Single, false, ASKED_END)
  {
    hide LimitClause, Trim, LowerChar, KeptFrom;
    AskedIsPlain();
    AskingPlain(value);
    LimitFive();
    var quoted := "'" + (value + ASKED_END);
    assert Asking(value) == ASKED + quoted;
    KeptInCode(false, ASKED, quoted);
    KeptOpening(IsSpace(ASKED[|ASKED| - 1]), value + ASKED_END);
    assert '\'' !in value;
    KeptInLiteral(value, ASKED_END);
  }

  lemma KeptOpening(run: bool, rest: string)
    ensures KeptFrom(Code, run, "'" + rest) == "'" + KeptFrom(Single, false, rest)
  {
    assert ("'" + rest)[1..] == rest;
  }

  /** Values that differ in letter case give statements with one key and one limit that do not
      mean the same. */
  lemma AskingCollides(v: string, w: string)
    requires PlainValue(v) && PlainValue(w) && SameUpToCase(v, w) && v != w
    ensures Normalize(Asking(v)) == Normalize(Asking(w)) && Canonical(Asking(v)) != Canonical(Asking(w))
  {
    hide Canonical, Normalize, KeptFrom, LimitClause;
    AskingKeepsValue(v);
    AskingKeepsValue(w);
    NormalFormForgetsCase(Asking(v), Asking(w));
    var head, tail := KeptFrom(Code, false, ASKED) + "'", KeptFrom(Single, false, ASKED_END);
    var a, b := head + v + tail, head + w + tail;
    assert a[|head|..|head| + |v|] == v && b[|head|..|head| + |w|] == w;
  }

  /** Quoted identifiers that differ in case collide in the key and are told apart. */
  lemma QuotedNamesKept()
    ensures Normalize("\"A\"") == Normalize("\"a\"") && Canonical("\"A\"") != Canonical("\"a\"")
  {
    hide KeptFrom, Trim, Normalize;
    NormalFormForgetsCase("\"A\"", "\"a\"");
    TightIsTrimmed("\"A\"");
    TightIsTrimmed("\"a\"");
    KeptShort('"', 'A', '"');
    KeptShort('"', 'a', '"');
    assert "\"A\"" == ['"', 'A', '"'] && "\"a\"" == ['"', 'a', '"'];
  }

  /** So do a comment followed by code and the same in one line. */
  lemma CommentLinesKept()
    ensures Normalize("--\na") == Normalize("-- a") && Canonical("--\na") != Canonical("-- a")
  {
    hide KeptFrom, Trim, Normalize;
    assert "--" + "\n" + "a" == "--\na" && "--" + " " + "a" == "-- a";
    NormalFormForgetsSpacing("--", "\n", " ", "a");
    TightIsTrimmed("--\na");
    TightIsTrimmed("-- a");
    KeptDashes('\n');
    KeptDashes(' ');
    assert "--\na" == ['-', '-', '\n', 'a'] && "-- a" == ['-', '-', ' ', 'a'];
  }

  lemma {:induction false} KeptInLine(comment: string, tail: string)
    requires forall c :: c in comment ==> !IsNewline(c)
    ensures KeptFrom(Line, false, comment + tail) == comment + KeptFrom(Line, false, tail)
    decreases |comment|
  {
    hide KeptFrom;
    if comment == "" {
      assert comment + tail == tail;
    } else {
      var c, rest := comment[0], comment[1..];
      assert c in comment && comment == [c] + rest && comment + tail == [c] + (rest + tail);
      LineStep(c, rest + tail);
      KeptInLine(rest, tail);
    }
  }

  lemma LineStep(c: char, rest: string)
    requires !IsNewline(c)
    ensures KeptFrom(Line, false, [c] + rest) == [c] + KeptFrom(Line, false, rest)
  {
    assert ([c] + rest)[1..] == rest;
  }

  lemma {:induction false} KeptInBlock(depth: nat, last: char, comment: string, tail: string)
    requires '*' !in comment && '/' !in comment
    ensures KeptFrom(Block(depth, last), false, comment + tail)
      == comment + KeptFrom(Block(depth, if comment == "" then last else comment[|comment| - 1]), false, tail)
    decreases |comment|
  {
    hide KeptFrom;
    if comment == "" {
      assert comment + tail == tail;
    } else {
      var c, rest := comment[0], comment[1..];
      assert comment == [c] + rest && comment + tail == [c] + (rest + tail);
      BlockStep(depth, last, c, rest + tail);
      KeptInBlock(depth, c, rest, tail);
    }
  }

  lemma BlockStep(depth: nat, last: char, c: char, rest: string)
    requires c != '*' && c != '/'
    ensures KeptFrom(Block(depth, last), false, [c] + rest) == [c] + KeptFrom(Block(depth, c), false, rest)
  {
    assert ([c] + rest)[1..] == rest;
  }

  lemma TwoKept(m: Mode, run: bool, a: char, b: char, rest: string)
    requires !IsSpace(a) && !IsSpace(b) && !IsUpper(a) && !IsUpper(b)
    ensures KeptFrom(m, run, [a, b] + rest) == [a, b] + KeptFrom(ModeAfter(ModeAfter(m, a), b), false, rest)
  {
    var t := [a, b] + rest;
    assert t[1..] == [b] + rest && t[1..][1..] == rest;
  }

  /** Comments are kept to the letter. One of two dashes ends with its line, a block comment with a
      star and a slash. */
  lemma CommentsAreKept(run: bool, comment: string, rest: string)
    requires forall c :: c in comment ==> !IsNewline(c)
    requires '*' !in comment && '/' !in comment
    ensures KeptFrom(Code, run, "--" + (comment + ("\n" + rest))) == "--" + comment + "\n" + KeptFrom(Code, false, rest)
    ensures KeptFrom(Code, run, "/*" + (comment + ("*/" + rest))) == "/*" + comment + "*/" + KeptFrom(Code, false, rest)
  {
    hide KeptFrom;
    TwoKept(Code, run, '-', '-', comment + ("\n" + rest));
    KeptInLine(comment, "\n" + rest);
    LineEnds(rest);
    TwoKept(Code, run, '/', '*', comment + ("*/" + rest));
    BlockEnds(0, comment, rest);
  }

  lemma BlockEnds(depth: nat, comment: string, rest: string)
    requires '*' !in comment && '/' !in comment
    ensures KeptFrom(Block(depth, ' '), false, comment + ("*/" + rest))
      == comment + "*/" + KeptFrom(if depth == 0 then Code else Block(depth - 1, ' '), false, rest)
  {
    hide KeptFrom;
    KeptInBlock(depth, ' ', comment, "*/" + rest);
    var last := if comment == "" then ' ' else comment[|comment| - 1];
    assert last != '/' && last != '*';
    TwoKept(Block(depth, last), false, '*', '/', rest);
  }

  /** A block comment inside another must end first. */
  lemma NestedCommentsAreKept(run: bool, comment: string, rest: string)
    requires '*' !in comment && '/' !in comment
    ensures KeptFrom(Code, run, "/*" + ("/*" + (comment + ("*/" + ("*/" + rest)))))
      == "/*" + "/*" + comment + "*/" + "*/" + KeptFrom(Code, false, rest)
  {
    hide KeptFrom;
    TwoKept(Code, run, '/', '*', "/*" + (comment + ("*/" + ("*/" + rest))));
    TwoKept(Block(0, ' '), false, '/', '*', comment + ("*/" + ("*/" + rest)));
    BlockEnds(1, comment, "*/" + rest);
    TwoKept(Block(0, ' '), false, '*', '/', rest);
  }

  lemma LineEnds(rest: string)
    ensures KeptFrom(Line, false, "\n" + rest) == "\n" + KeptFrom(Code, false, rest)
  {
    assert ("\n" + rest)[1..] == rest;
  }

  lemma KeptShort(x: char, y: char, z: char)
    requires x == '"' && y != '"'
    ensures KeptFrom(Code, false, [x, y, z]) == [x, y, z]
  {
    assert [x, y, z][1..] == [y, z] && [y, z][1..] == [z] && [z][1..] == "";
    assert KeptFrom(Double, false, [z]) == [z];
    assert KeptFrom(Double, false, [y, z]) == [y, z];
  }

  lemma KeptDashes(x: char)
    requires x == ' ' || x == '\n'
    ensures KeptFrom(Code, false, ['-', '-', x, 'a']) == ['-', '-', x, 'a']
  {
    var t := ['-', '-', x, 'a'];
    assert t[1..] == ['-', x, 'a'] && t[1..][1..] == [x, 'a'] && [x, 'a'][1..] == ['a'] && ['a'][1..] == "";
    var m := ModeAfter(Line, x);
    assert KeptFrom(m, false, ['a']) == ['a'];
    assert KeptFrom(Line, false, [x, 'a']) == [x, 'a'];
    assert KeptFrom(Dash, false, ['-', x, 'a']) == ['-', x, 'a'];
  }
}
