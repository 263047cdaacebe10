/** Reading and rewriting LIMIT clauses in SQL text with the case-insensitive pattern
    `\blimit\s+(\d+)\b`. Texts are scanned left to right; `prev` says whether the character
    just before the scanned text is a word character. */
module LimitText {
  import opened Wrappers
  import opened AsciiText

  // ---- What the pattern matches ----

  predicate WordAt(s: string, i: int) { 0 <= i < |s| && IsWord(s[i]) }

  /** The zero-width assertion `\b` at position i. */
  predicate Boundary(s: string, i: int) { WordAt(s, i - 1) != WordAt(s, i) }

  /** The pattern matches exactly s[i..j], read off the pattern item by item; the number
      starts at k. */
  predicate PatternAt(s: string, i: nat, k: nat, j: nat) {
    && i + 5 < k < j <= |s|
    && Boundary(s, i)
    && Lower(s[i..i + 5]) == "limit"
    && AllSpace(s[i + 5..k])
    && AllDigit(s[k..j])
    && Boundary(s, j)
  }

  /** The same reading relative to the text from the match on. */
  predicate HeadMatch(prev: bool, t: string, k: nat, j: nat) {
    && !prev
    && 5 < k < j <= |t|
    && Lower(t[..5]) == "limit"
    && AllSpace(t[5..k])
    && AllDigit(t[k..j])
    && !WordAt(t, j)
  }

  lemma PatternIsHeadMatch(s: string, i: nat, k: nat, j: nat)
    requires i <= k <= j && i <= |s|
    ensures PatternAt(s, i, k, j) <==> HeadMatch(WordAt(s, i - 1), s[i..], k - i, j - i)
  {
    var t := s[i..];
    if i + 5 < k < j <= |s| {
      assert t[..5] == s[i..i + 5];
      assert t[5..k - i] == s[i + 5..k];
      assert t[k - i..j - i] == s[k..j];
      if Lower(t[..5]) == "limit" && AllDigit(s[k..j]) {
        LimitLetters(t[..5]);
        assert IsDigit(s[k..j][j - 1 - k]);
      }
    }
  }

  // ---- Matching by longest runs ----

  /** The start of the number and the end of the match at the head of t, if there is one. */
  function MatchHere(prev: bool, t: string): (r: Option<(nat, nat)>)
    ensures r.Some? ==> HeadMatch(prev, t, r.value.0, r.value.1)
  {
    if prev || |t| < 5 || Lower(t[..5]) != "limit" then None
    else
      var k := 5 + SpaceRun(t[5..]);
      var j := k + DigitRun(t[k..]);
      assert t[k..][..j - k] == t[k..j];
      assert t[5..][..k - 5] == t[5..k];
      if k == 5 || j == k || WordAt(t, j) then None else Some((k, j))
  }

  /** Longest runs find the pattern's match, and there is no other. */
  lemma MatchHereFindsHeadMatch(prev: bool, t: string, k: nat, j: nat)
    requires HeadMatch(prev, t, k, j)
    ensures MatchHere(prev, t) == Some((k, j))
  {
    assert IsDigit(t[k..j][0]);
    assert t[5..][..k - 5] == t[5..k];
    assert t[k..][..j - k] == t[k..j];
    SpaceRunExact(t[5..], k - 5);
    DigitRunExact(t[k..], j - k);
  }

  lemma MatchHereIsPattern(s: string, i: nat, k: nat, j: nat)
    requires i <= k <= j && i <= |s|
    ensures PatternAt(s, i, k, j) <==> MatchHere(WordAt(s, i - 1), s[i..]) == Some((k - i, j - i))
  {
    PatternIsHeadMatch(s, i, k, j);
    if PatternAt(s, i, k, j) {
      MatchHereFindsHeadMatch(WordAt(s, i - 1), s[i..], k - i, j - i);
    }
  }

  lemma LimitLetters(w: string)
    requires |w| == 5 && Lower(w) == "limit"
    ensures IsWord(w[0]) && !IsDigit(w[0])
    ensures forall q :: 1 <= q < 5 ==> LowerChar(w[q]) != 'l'
  {
    assert Lower(w)[0] == 'l' && Lower(w)[1] == 'i' && Lower(w)[2] == 'm' && Lower(w)[3] == 'i' && Lower(w)[4] == 't';
  }

  predicate NoWord(s: string) { forall i :: 0 <= i < |s| ==> !IsWord(s[i]) }

  lemma NoMatchAtNonWord(prev: bool, t: string)
    requires t != "" && !IsWord(t[0])
    ensures MatchHere(prev, t) == None
  {
    if |t| >= 5 && Lower(t[..5]) == "limit" { LimitLetters(t[..5]); }
  }

  // ---- The two functions of the validator ----

  /** The number of the leftmost LIMIT clause of the scanned text. */
  function Extract(prev: bool, t: string): Option<nat>
    decreases |t|
  {
    match MatchHere(prev, t)
    case Some((k, j)) => Some(Num(t[k..j]))
    case None => if t == "" then None else Extract(IsWord(t[0]), t[1..])
  }

  function ExtractLimit(sql: string): Option<nat> { Extract(false, sql) }

  function LimitClause(n: nat): string { "LIMIT " + Dec(n) }

  /** Every LIMIT clause replaced, left to right. */
  function Rewrite(prev: bool, t: string, n: nat): string
    decreases |t|
  {
    match MatchHere(prev, t)
    case Some((k, j)) => LimitClause(n) + Rewrite(true, t[j..], n)
    case None => if t == "" then "" else [t[0]] + Rewrite(IsWord(t[0]), t[1..], n)
  }

  function ApplyLimit(sql: string, n: nat): string {
    if ExtractLimit(sql) == None then sql + "\n" + LimitClause(n) else Rewrite(false, sql, n)
  }

  /** The text `_extract_limit` reads is the number of the pattern's leftmost match. */
  lemma ExtractLimitIsLeftmostMatch(s: string)
    ensures match ExtractLimit(s)
      case None => forall i: nat, k: nat, j: nat :: !PatternAt(s, i, k, j)
      case Some(v) => exists i: nat, k: nat, j: nat ::
        && PatternAt(s, i, k, j) && v == Num(s[k..j])
        && forall i': nat, k': nat, j': nat | i' < i :: !PatternAt(s, i', k', j')
  {
    assert s[0..] == s;
    LeftmostFrom(s, 0);
  }

  lemma MatchFits(prev: bool, t: string, k: nat, j: nat)
    requires MatchHere(prev, t) == Some((k, j))
    ensures 5 < k < j <= |t|
  {
  }

  lemma PatternFits(s: string)
    ensures forall i: nat, k: nat, j: nat :: PatternAt(s, i, k, j) ==> i < |s|
  {
  }

  lemma {:induction false} LeftmostFrom(s: string, from: nat)
    requires from <= |s|
    requires forall i: nat, k: nat, j: nat | i < from :: !PatternAt(s, i, k, j)
    ensures match Extract(WordAt(s, from - 1), s[from..])
      case None => forall i: nat, k: nat, j: nat :: !PatternAt(s, i, k, j)
      case Some(v) => exists i: nat, k: nat, j: nat ::
        && PatternAt(s, i, k, j) && v == Num(s[k..j])
        && forall i': nat, k': nat, j': nat | i' < i :: !PatternAt(s, i', k', j')
    decreases |s| - from
  {
    hide MatchHere, HeadMatch, PatternAt, AllDigit;
    var t := s[from..];
    if MatchHere(WordAt(s, from - 1), t).Some? {
      var (k, j) := MatchHere(WordAt(s, from - 1), t).value;
      MatchFits(WordAt(s, from - 1), t, k, j);
      MatchHereIsPattern(s, from, from + k, from + j);
      assert t[k..j] == s[from + k..from + j];
    } else {
      NoMatchHere(s, from);
      if t != "" {
        assert t[1..] == s[from + 1..];
        LeftmostFrom(s, from + 1);
      } else {
        PatternFits(s);
      }
    }
  }

  lemma NoMatchHere(s: string, i: nat)
    requires i <= |s| && MatchHere(WordAt(s, i - 1), s[i..]) == None
    ensures forall k: nat, j: nat :: !PatternAt(s, i, k, j)
  {
    hide MatchHere;
    forall k: nat, j: nat ensures !PatternAt(s, i, k, j) {
      if i <= k <= j { MatchHereIsPattern(s, i, k, j); }
    }
  }

  // ---- A text as plain characters and LIMIT clauses ----

  datatype Token = Char(c: char) | Limit(n: nat)

  function Scan(prev: bool, t: string): seq<Token>
    decreases |t|
  {
    match MatchHere(prev, t)
    case Some((k, j)) => [Limit(Num(t[k..j]))] + Scan(true, t[j..])
    case None => if t == "" then [] else [Char(t[0])] + Scan(IsWord(t[0]), t[1..])
  }

  function WithLimit(tokens: seq<Token>, n: nat): seq<Token> {
    if tokens == [] then []
    else [if tokens[0].Limit? then Limit(n) else tokens[0]] + WithLimit(tokens[1..], n)
  }

  /** The text of the tokens with every LIMIT clause printed as `LIMIT n`. */
  function Print(tokens: seq<Token>, n: nat): string {
    if tokens == [] then ""
    else (if tokens[0].Limit? then LimitClause(n) else [tokens[0].c]) + Print(tokens[1..], n)
  }

  function FirstLimit(tokens: seq<Token>): Option<nat> {
    if tokens == [] then None
    else if tokens[0].Limit? then Some(tokens[0].n)
    else FirstLimit(tokens[1..])
  }

  lemma {:induction false} ExtractIsFirstLimit(prev: bool, t: string)
    ensures Extract(prev, t) == FirstLimit(Scan(prev, t))
    decreases |t|
  {
    if MatchHere(prev, t) == None && t != "" {
      ExtractIsFirstLimit(IsWord(t[0]), t[1..]);
    }
  }

  lemma {:induction false} RewriteIsPrint(prev: bool, t: string, n: nat)
    ensures Rewrite(prev, t, n) == Print(Scan(prev, t), n)
    decreases |t|
  {
    match MatchHere(prev, t) {
      case Some((k, j)) => RewriteIsPrint(true, t[j..], n);
      case None => if t != "" { RewriteIsPrint(IsWord(t[0]), t[1..], n); }
    }
  }

  // ---- Rewriting creates no match and loses none ----

  /** How many characters precede the first match. */
  function Gap(prev: bool, t: string): (p: nat)
    ensures p <= |t|
    decreases |t|
  {
    if MatchHere(prev, t).Some? || t == "" then 0 else Gap(IsWord(t[0]), t[1..]) + 1
  }

  predicate KeepsGap(t: string, p: nat, r: string) {
    && p <= |t| && p <= |r| && r[..p] == t[..p]
    && (p == |t| ==> |r| == p)
    && (p < |t| ==> p < |r| && r[p] == 'L')
  }

  lemma GapStep(prev: bool, t: string, n: nat)
    requires t != "" && MatchHere(prev, t) == None
    requires KeepsGap(t[1..], Gap(IsWord(t[0]), t[1..]), Rewrite(IsWord(t[0]), t[1..], n))
    ensures KeepsGap(t, Gap(prev, t), Rewrite(prev, t, n))
  {
  }

  lemma {:induction false} GapKept(prev: bool, t: string, n: nat)
    ensures KeepsGap(t, Gap(prev, t), Rewrite(prev, t, n))
    decreases |t|
  {
    if MatchHere(prev, t).Some? {
    } else if t != "" {
      GapKept(IsWord(t[0]), t[1..], n);
      GapStep(prev, t, n);
    }
  }

  /** After its first letter a match has no L, and nothing but whitespace between its word
      characters. */
  lemma MatchCharacters(prev: bool, t: string, k: nat, j: nat, p: nat)
    requires HeadMatch(prev, t, k, j) && p < j
    ensures p > 0 ==> LowerChar(t[p]) != 'l'
    ensures IsWord(t[p]) || (5 <= p < k && AllSpace(t[p..k]) && IsDigit(t[k]))
  {
    LimitLetters(t[..5]);
    assert IsDigit(t[k..j][0]);
    if p < 5 {
      assert LowerChar(t[p]) == Lower(t[..5])[p];
    } else if p < k {
      assert forall i :: 0 <= i < k - p ==> t[p..k][i] == t[5..k][i + p - 5];
      assert IsSpace(t[5..k][p - 5]);
    } else {
      assert IsDigit(t[k..j][p - k]);
    }
  }

  lemma NoNewMatch(prev: bool, t: string, n: nat, k: nat, j: nat)
    requires HeadMatch(prev, Rewrite(prev, t, n), k, j) && Gap(prev, t) > 0
    ensures HeadMatch(prev, t, k, j)
  {
    var p, r := Gap(prev, t), Rewrite(prev, t, n);
    GapKept(prev, t, n);
    if j > p {
      MatchCharacters(prev, r, k, j, p);
      assert false;
    } else {
      assert forall q :: 0 <= q < j ==> t[q] == t[..p][q] == r[q];
      assert t[..5] == r[..5] && t[5..k] == r[5..k] && t[k..j] == r[k..j];
      if j < p { assert t[j] == t[..p][j] == r[..p][j]; }
    }
  }

  lemma ClauseMatches(n: nat, rest: string)
    requires !WordAt(rest, 0)
    ensures var c := LimitClause(n);
      MatchHere(false, c + rest) == Some((6, |c|)) && (c + rest)[6..|c|] == Dec(n) && (c + rest)[|c|..] == rest
  {
    var c := LimitClause(n);
    var t := c + rest;
    assert t[..5] == "LIMIT";
    assert Lower("LIMIT") == "limit";
    assert t[5..6] == " ";
    assert t[6..|c|] == Dec(n);
    assert HeadMatch(false, t, 6, |c|);
    MatchHereFindsHeadMatch(false, t, 6, |c|);
  }

  /** The rewritten text scans to the same characters in the same places, with every LIMIT
      clause now saying n. */
  lemma {:induction false} RewriteKeepsTheRest(prev: bool, t: string, n: nat)
    ensures Scan(prev, Rewrite(prev, t, n)) == WithLimit(Scan(prev, t), n)
    decreases |t|
  {
    var r := Rewrite(prev, t, n);
    match MatchHere(prev, t) {
      case Some((k, j)) =>
        var rest := Rewrite(true, t[j..], n);
        RewriteKeepsTheRest(true, t[j..], n);
        ClauseMatches(n, rest);
        NumDec(n);
      case None =>
        if t != "" {
          if MatchHere(prev, r).Some? {
            var (k, j) := MatchHere(prev, r).value;
            NoNewMatch(prev, t, n, k, j);
            MatchHereFindsHeadMatch(prev, t, k, j);
            assert false;
          }
          RewriteKeepsTheRest(IsWord(t[0]), t[1..], n);
        }
    }
  }

  // ---- Text appended after a non-word character ----

  /** Appending this text cannot complete or break a LIMIT clause before it. */
  predicate Inert(tail: string) {
    tail != "" && !IsWord(tail[0]) && !(SpaceRun(tail) < |tail| && IsDigit(tail[SpaceRun(tail)]))
  }

  lemma MatchStopsBeforeTail(prev: bool, t: string, tail: string, k: nat, j: nat)
    requires Inert(tail)
    ensures HeadMatch(prev, t + tail, k, j) <==> HeadMatch(prev, t, k, j)
  {
    var s := t + tail;
    if HeadMatch(prev, s, k, j) && j > |t| {
      MatchCharacters(prev, s, k, j, |t|);
      assert tail[..k - |t|] == s[|t|..k];
      SpaceRunExact(tail, k - |t|);
      assert false;
    } else if j <= |t| && 5 < k < j {
      assert s[..5] == t[..5] && s[5..k] == t[5..k] && s[k..j] == t[k..j];
      assert WordAt(s, j) == WordAt(t, j);
    }
  }

  lemma MatchIgnoresTail(prev: bool, t: string, tail: string)
    requires Inert(tail)
    ensures MatchHere(prev, t + tail) == MatchHere(prev, t)
  {
    if MatchHere(prev, t + tail).Some? {
      var (k, j) := MatchHere(prev, t + tail).value;
      MatchStopsBeforeTail(prev, t, tail, k, j);
      MatchHereFindsHeadMatch(prev, t, k, j);
    } else if MatchHere(prev, t).Some? {
      var (k, j) := MatchHere(prev, t).value;
      MatchStopsBeforeTail(prev, t, tail, k, j);
      MatchHereFindsHeadMatch(prev, t + tail, k, j);
    }
  }

  lemma ScanMatch(prev: bool, t: string, k: nat, j: nat)
    requires MatchHere(prev, t) == Some((k, j))
    ensures 5 < k < j <= |t| && AllDigit(t[k..j])
    ensures Scan(prev, t) == [Limit(Num(t[k..j]))] + Scan(true, t[j..])
  {
    hide Num, AllDigit;
  }

  lemma ScanChar(prev: bool, t: string)
    requires MatchHere(prev, t) == None
    ensures Scan(prev, t) == if t == "" then [] else [Char(t[0])] + Scan(IsWord(t[0]), t[1..])
  {
    hide MatchHere;
  }

  lemma {:induction false} ScanAppend(prev: bool, t: string, tail: string)
    requires Inert(tail)
    ensures Scan(prev, t + tail) == Scan(prev, t) + Scan(false, tail)
    decreases |t|
  {
    hide MatchHere, HeadMatch, Num, Inert, Scan, AllDigit;
    var s := t + tail;
    MatchIgnoresTail(prev, t, tail);
    if MatchHere(prev, t).Some? {
      var (k, j) := MatchHere(prev, t).value;
      ScanMatch(prev, t, k, j);
      ScanMatch(prev, s, k, j);
      assert s[j..] == t[j..] + tail && s[k..j] == t[k..j];
      ScanAppend(true, t[j..], tail);
    } else if t == "" {
      TailScans(prev, tail);
      ScanChar(prev, t);
      assert s == tail;
    } else {
      ScanChar(prev, t);
      ScanChar(prev, s);
      assert s[1..] == t[1..] + tail;
      ScanAppend(IsWord(t[0]), t[1..], tail);
    }
  }

  lemma NothingInEmpty(prev: bool)
    ensures MatchHere(prev, "") == None
  {
  }

  lemma TailScans(prev: bool, tail: string)
    requires Inert(tail)
    ensures Scan(prev, tail) == Scan(false, tail)
  {
    hide MatchHere, HeadMatch, Inert;
    assert "" + tail == tail;
    MatchIgnoresTail(prev, "", tail);
    MatchIgnoresTail(false, "", tail);
    NothingInEmpty(prev);
    NothingInEmpty(false);
    ScanChar(prev, tail);
    ScanChar(false, tail);
  }

  // ---- What `_apply_limit` guarantees ----

  lemma {:induction false} WithLimitPrint(tokens: seq<Token>, m: nat, n: nat)
    ensures Print(WithLimit(tokens, m), n) == Print(tokens, n)
    ensures FirstLimit(WithLimit(tokens, m)) == if FirstLimit(tokens).Some? then Some(m) else None
  {
    if tokens != [] {
      WithLimitPrint(tokens[1..], m, n);
    }
  }

  lemma {:induction false} PrintWithoutLimits(prev: bool, t: string, n: nat)
    requires Extract(prev, t) == None
    ensures Print(Scan(prev, t), n) == t
    decreases |t|
  {
    if t != "" {
      PrintWithoutLimits(IsWord(t[0]), t[1..], n);
    }
  }

  lemma PrintClause(m: nat, n: nat)
    ensures Print([Char('\n'), Limit(m)], n) == "\n" + LimitClause(n)
  {
    var tail := [Char('\n'), Limit(m)];
    assert tail[1..] == [Limit(m)] && tail[1..][1..] == [];
    assert Print([Limit(m)], n) == LimitClause(n) + Print([], n);
  }

  lemma {:induction false} PrintAppend(a: seq<Token>, b: seq<Token>, n: nat)
    ensures Print(a + b, n) == Print(a, n) + Print(b, n)
    ensures FirstLimit(a + b) == if FirstLimit(a).Some? then FirstLimit(a) else FirstLimit(b)
  {
    if a == [] {
      assert a + b == b;
    } else {
      assert (a + b)[1..] == a[1..] + b;
      PrintAppend(a[1..], b, n);
    }
  }

  lemma AppendedClause(sep: char, n: nat)
    requires IsSpace(sep)
    ensures Inert([sep] + LimitClause(n)) && Scan(false, [sep] + LimitClause(n)) == [Char(sep), Limit(n)]
  {
    hide Dec, Num;
    var clause := LimitClause(n);
    var tail := [sep] + clause;
    assert tail[..1] == [sep] && tail[1] == 'L';
    SpaceRunExact(tail, 1);
    MatchIgnoresTail(false, "", tail);
    assert "" + tail == tail;
    assert tail[1..] == clause && clause + "" == clause;
    ClauseMatches(n, "");
    NumDec(n);
    assert Scan(true, "") == [];
    assert Scan(false, clause) == [Limit(n)];
  }

  /** Outside LIMIT clauses the text is untouched: either every clause is set to n, or, when
      there is none, one is added on a new line. */
  lemma ApplyLimitTokens(sql: string, n: nat)
    ensures Scan(false, ApplyLimit(sql, n)) ==
      if ExtractLimit(sql) == None then Scan(false, sql) + [Char('\n'), Limit(n)]
      else WithLimit(Scan(false, sql), n)
  {
    if ExtractLimit(sql) == None {
      AppendedClause('\n', n);
      assert ApplyLimit(sql, n) == sql + ("\n" + LimitClause(n));
      ScanAppend(false, sql, "\n" + LimitClause(n));
    } else {
      RewriteKeepsTheRest(false, sql, n);
    }
  }

  /** What is applied is what is read back. */
  lemma ExtractAfterApply(sql: string, n: nat)
    ensures ExtractLimit(ApplyLimit(sql, n)) == Some(n)
  {
    ApplyLimitTokens(sql, n);
    ExtractIsFirstLimit(false, sql);
    ExtractIsFirstLimit(false, ApplyLimit(sql, n));
    WithLimitPrint(Scan(false, sql), n, n);
    PrintAppend(Scan(false, sql), [Char('\n'), Limit(n)], n);
  }

  /** The last limit applied wins, whatever was applied before; with m == n, applying a limit
      twice is applying it once. */
  lemma LastLimitWins(sql: string, m: nat, n: nat)
    ensures ApplyLimit(ApplyLimit(sql, m), n) == ApplyLimit(sql, n)
  {
    ExtractAfterApply(sql, m);
    ApplyLimitTokens(sql, m);
    RewriteIsPrint(false, ApplyLimit(sql, m), n);
    if ExtractLimit(sql) == None {
      var tail := [Char('\n'), Limit(m)];
      PrintAppend(Scan(false, sql), tail, n);
      PrintWithoutLimits(false, sql, n);
      PrintClause(m, n);
    } else {
      RewriteIsPrint(false, sql, n);
      WithLimitPrint(Scan(false, sql), m, n);
    }
  }

  /** The compiler's text ends with its LIMIT clause. The validator reads that clause's number
      exactly when nothing earlier in the text, not even inside a quoted literal, looks like
      a LIMIT clause with another number. */
  lemma RenderedLimitRead(body: string, sep: char, n: nat)
    requires IsSpace(sep)
    ensures ExtractLimit(body + [sep] + LimitClause(n)) ==
      if ExtractLimit(body).Some? then ExtractLimit(body) else Some(n)
  {
    AppendedClause(sep, n);
    var tail := [sep] + LimitClause(n);
    assert body + [sep] + LimitClause(n) == body + tail;
    ScanAppend(false, body, tail);
    ExtractIsFirstLimit(false, body + tail);
    ExtractIsFirstLimit(false, body);
    PrintAppend(Scan(false, body), [Char(sep), Limit(n)], n);
  }

  lemma SkipOne(prev: bool, t: string)
    requires t != "" && (prev || LowerChar(t[0]) != 'l')
    ensures Extract(prev, t) == Extract(IsWord(t[0]), t[1..])
  {
    if |t| >= 5 { assert Lower(t[..5])[0] == LowerChar(t[0]); }
  }

  lemma LimitFiveQuoted()
    ensures Extract(false, "limit 5'") == Some(5)
  {
    var t := "limit 5'";
    assert t[..5] == "limit" && t[5..6] == " " && t[6..7] == "5" && Lower("limit") == "limit";
    MatchHereFindsHeadMatch(false, t, 6, 7);
    assert Num("5") == 5;
  }

  lemma LimitFiveCompared()
    ensures ExtractLimit("= 'limit 5'") == Some(5)
  {
    SkipOne(false, "= 'limit 5'");
    assert "= 'limit 5'"[1..] == " 'limit 5'";
    SkipOne(false, " 'limit 5'");
    assert " 'limit 5'"[1..] == "'limit 5'";
    SkipOne(false, "'limit 5'");
    assert "'limit 5'"[1..] == "limit 5'";
    LimitFiveQuoted();
  }

  /** Comparing with the literal 'limit 5' before the LIMIT clause for ten rows reads as five. */
  lemma LiteralReadAsLimit()
    ensures ExtractLimit("= 'limit 5'" + ['\n'] + LimitClause(10)) == Some(5)
  {
    hide Extract, ExtractLimit, LimitClause;
    LimitFiveCompared();
    RenderedLimitRead("= 'limit 5'", '\n', 10);
  }
}
