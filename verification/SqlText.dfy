/** The text of a compiled query, and what its keys, identifiers and literals can put into it:
    words and LIMIT clauses that the guardrail looks for. */
module SqlText {
  import opened Wrappers
  import opened AsciiText
  import opened LimitText
  import opened Literals
  import opened Sql
  import opened SqlValidator
  import opened ServedRows

  // ---- Words across a junction ----

  /** No word goes on from a to b. */
  predicate Fit(a: string, b: string) { a == "" || b == "" || !IsWord(a[|a| - 1]) || !IsWord(b[0]) }

  lemma WriteWordsAreWords(w: string)
    requires w in WRITE_WORDS
    ensures w != "" && forall i :: 0 <= i < |w| ==> IsLower(w[i])
  {
  }

  lemma LowerIsWord(s: string, w: string, i: nat)
    requires i + |w| <= |s| && Lower(s[i..i + |w|]) == w && forall k :: 0 <= k < |w| ==> IsLower(w[k])
    ensures forall k :: i <= k < i + |w| ==> IsWord(s[k])
  {
    forall k | i <= k < i + |w| ensures IsWord(s[k]) {
      assert LowerChar(s[k]) == Lower(s[i..i + |w|])[k - i] == w[k - i];
    }
  }

  lemma WordInFirst(a: string, b: string, w: string, i: nat)
    requires Fit(a, b) && w != "" && (forall k :: 0 <= k < |w| ==> IsLower(w[k])) && i + |w| <= |a|
    ensures WordIs(a + b, w, i) <==> WordIs(a, w, i)
  {
    assert (a + b)[i..i + |w|] == a[i..i + |w|];
    if Lower(a[i..i + |w|]) == w { LowerIsWord(a, w, i); }
  }

  lemma WordInSecond(a: string, b: string, w: string, i: nat)
    requires Fit(a, b) && w != "" && (forall k :: 0 <= k < |w| ==> IsLower(w[k])) && i + |w| <= |b|
    ensures WordIs(a + b, w, |a| + i) <==> WordIs(b, w, i)
  {
    assert (a + b)[|a| + i..|a| + i + |w|] == b[i..i + |w|];
    if Lower(b[i..i + |w|]) == w { LowerIsWord(b, w, i); }
  }

  lemma WordAcross(a: string, b: string, w: string, i: nat)
    requires (forall k :: 0 <= k < |w| ==> IsLower(w[k])) && i < |a| < i + |w| <= |a + b| && WordIs(a + b, w, i)
    ensures IsWord(a[|a| - 1]) && IsWord(b[0])
  {
    LowerIsWord(a + b, w, i);
    assert (a + b)[|a| - 1] == a[|a| - 1] && (a + b)[|a|] == b[0];
  }

  lemma WordNotAcross(a: string, b: string, w: string, i: nat)
    requires Fit(a, b) && (forall k :: 0 <= k < |w| ==> IsLower(w[k])) && i < |a| < i + |w| <= |a + b|
    ensures !WordIs(a + b, w, i)
  {
    if WordIs(a + b, w, i) { WordAcross(a, b, w, i); }
  }

  /** A text has a write word exactly when one of two parts that fit has. */
  lemma WriteWordSplits(a: string, b: string)
    requires Fit(a, b)
    ensures HasWriteWord(a + b) <==> HasWriteWord(a) || HasWriteWord(b)
  {
    hide Fit, IsLower;
    forall w, i: int | w in WRITE_WORDS && 0 <= i
      ensures i + |w| <= |a| ==> (WordIs(a + b, w, i) <==> WordIs(a, w, i))
      ensures i + |w| <= |b| ==> (WordIs(a + b, w, |a| + i) <==> WordIs(b, w, i))
      ensures i < |a| < i + |w| <= |a + b| ==> !WordIs(a + b, w, i)
    {
      WriteWordsAreWords(w);
      if i + |w| <= |a| { WordInFirst(a, b, w, i); }
      if i + |w| <= |b| { WordInSecond(a, b, w, i); }
      if i < |a| < i + |w| <= |a + b| { WordNotAcross(a, b, w, i); }
    }
    if HasWriteWord(a + b) {
      var w, i: int :| w in WRITE_WORDS && 0 <= i <= |a + b| && WordIs(a + b, w, i);
      if i + |w| <= |a| {
        assert WordIs(a, w, i);
      } else if i >= |a| {
        assert WordIs(b, w, i - |a|);
      }
    }
    if HasWriteWord(a) {
      var w, i: int :| w in WRITE_WORDS && 0 <= i <= |a| && WordIs(a, w, i);
      assert WordIs(a + b, w, i);
    }
    if HasWriteWord(b) {
      var w, i: int :| w in WRITE_WORDS && 0 <= i <= |b| && WordIs(b, w, i);
      assert WordIs(a + b, w, |a| + i);
    }
  }

  predicate AllWord(s: string) { forall i :: 0 <= i < |s| ==> IsWord(s[i]) }

  lemma NoWriteWordInSymbols(s: string)
    requires NoWord(s)
    ensures !HasWriteWord(s)
  {
    forall w, i: int | w in WRITE_WORDS && 0 <= i <= |s| ensures !WordIs(s, w, i) {
      WriteWordsAreWords(w);
      if i + |w| <= |s| && Lower(s[i..i + |w|]) == w { LowerIsWord(s, w, i); }
    }
  }

  /** One word has a write word exactly when it is one. */
  lemma WriteWordOfWord(s: string)
    requires AllWord(s)
    ensures HasWriteWord(s) <==> Lower(s) in WRITE_WORDS
  {
    if HasWriteWord(s) {
      var w, i: int :| w in WRITE_WORDS && 0 <= i <= |s| && WordIs(s, w, i);
      WriteWordsAreWords(w);
      LowerIsWord(s, w, i);
      assert i == 0 && i + |w| == |s|;
      assert s[0..|s|] == s;
    }
    if Lower(s) in WRITE_WORDS {
      WriteWordsAreWords(Lower(s));
      assert s[0..|s|] == s;
      assert WordIs(s, Lower(s), 0);
    }
  }

  lemma WriteWordIsOne(w: string)
    requires w in WRITE_WORDS
    ensures HasWriteWord(w)
  {
    WriteWordsAreWords(w);
    assert Lower(w) == w;
    WriteWordOfWord(w);
  }

  // ---- LIMIT clauses across a junction ----

  predicate EndsLimit(a: string) {
    exists h :: 0 <= h && h + 5 <= |a| && IsLimitAt(a, h) && AllSpace(a[h + 5..])
  }

  predicate IsLimitAt(a: string, h: int) { 0 <= h && h + 5 <= |a| && Lower(a[h..h + 5]) == "limit" }

  predicate StartsNumber(b: string) { SpaceRun(b) < |b| && IsDigit(b[SpaceRun(b)]) }

  lemma HeadInLetters(prev: bool, a: string, b: string, k: nat, j: nat)
    requires HeadMatch(prev, a + b, k, j) && 0 < |a| < 5
    ensures b != "" && IsWord(a[|a| - 1]) && IsWord(b[0])
  {
    var s := a + b;
    LimitLetters(s[..5]);
    assert LowerChar(s[|a| - 1]) == Lower(s[..5])[|a| - 1] && LowerChar(s[|a|]) == Lower(s[..5])[|a|];
  }

  lemma HeadInSpaces(prev: bool, a: string, b: string, k: nat, j: nat)
    requires HeadMatch(prev, a + b, k, j) && 5 <= |a| <= k
    ensures EndsLimit(a) && StartsNumber(b)
  {
    var s := a + b;
    assert a[0..5] == s[..5] && IsLimitAt(a, 0);
    assert a[5..] == s[5..k][..|a| - 5];
    assert b[..k - |a|] == s[5..k][|a| - 5..];
    assert IsDigit(s[k..j][0]) && b[k - |a|] == s[k];
    SpaceRunExact(b, k - |a|);
  }

  lemma HeadInDigits(prev: bool, a: string, b: string, k: nat, j: nat)
    requires HeadMatch(prev, a + b, k, j) && k < |a| < j
    ensures b != "" && IsWord(a[|a| - 1]) && IsWord(b[0])
  {
    var s := a + b;
    assert IsDigit(s[k..j][|a| - 1 - k]) && IsDigit(s[k..j][|a| - k]);
  }

  lemma HeadStays(prev: bool, a: string, b: string, k: nat, j: nat)
    requires Fit(a, b) && j <= |a|
    ensures HeadMatch(prev, a + b, k, j) <==> HeadMatch(prev, a, k, j)
  {
    var s := a + b;
    if 5 < k < j {
      assert s[..5] == a[..5] && s[5..k] == a[5..k] && s[k..j] == a[k..j];
      if AllDigit(a[k..j]) { assert IsDigit(a[k..j][j - 1 - k]); }
    }
  }

  lemma HeadSplits(prev: bool, a: string, b: string, k: nat, j: nat)
    requires a != "" && Fit(a, b) && !(EndsLimit(a) && StartsNumber(b))
    ensures HeadMatch(prev, a + b, k, j) <==> j <= |a| && HeadMatch(prev, a, k, j)
  {
    hide HeadMatch, EndsLimit, StartsNumber;
    if j <= |a| {
      HeadStays(prev, a, b, k, j);
    } else if HeadMatch(prev, a + b, k, j) {
      if |a| < 5 { HeadInLetters(prev, a, b, k, j); }
      else if |a| <= k { HeadInSpaces(prev, a, b, k, j); }
      else { HeadInDigits(prev, a, b, k, j); }
    }
  }

  lemma MatchSplits(prev: bool, a: string, b: string)
    requires a != "" && Fit(a, b) && !(EndsLimit(a) && StartsNumber(b))
    ensures MatchHere(prev, a + b) == MatchHere(prev, a)
  {
    hide HeadMatch, MatchHere, EndsLimit, StartsNumber;
    if MatchHere(prev, a + b).Some? {
      var (k, j) := MatchHere(prev, a + b).value;
      HeadSplits(prev, a, b, k, j);
      MatchHereFindsHeadMatch(prev, a, k, j);
    } else if MatchHere(prev, a).Some? {
      var (k, j) := MatchHere(prev, a).value;
      MatchFits(prev, a, k, j);
      HeadSplits(prev, a, b, k, j);
      MatchHereFindsHeadMatch(prev, a + b, k, j);
    }
  }

  lemma EndsLimitOfRest(a: string)
    requires a != "" && EndsLimit(a[1..])
    ensures EndsLimit(a)
  {
    var h :| 0 <= h && h + 5 <= |a[1..]| && IsLimitAt(a[1..], h) && AllSpace(a[1..][h + 5..]);
    assert a[1..][h..h + 5] == a[h + 1..h + 6] && a[1..][h + 5..] == a[h + 6..];
    assert IsLimitAt(a, h + 1) && AllSpace(a[h + 1 + 5..]);
  }

  /** A text shows a LIMIT clause exactly when one of two parts does, provided that no word goes
      on across them and the first does not end where a number would complete a clause. */
  lemma {:induction false} LimitSplits(prev: bool, a: string, b: string)
    requires Fit(a, b) && !(EndsLimit(a) && StartsNumber(b))
    ensures Extract(prev, a + b).Some? <==>
      Extract(prev, a).Some? || Extract(if a == "" then prev else IsWord(a[|a| - 1]), b).Some?
    decreases |a|
  {
    hide MatchHere, EndsLimit, StartsNumber, Num, AllDigit;
    if a == "" {
      assert a + b == b;
    } else {
      MatchSplits(prev, a, b);
      if MatchHere(prev, a).None? {
        assert (a + b)[1..] == a[1..] + b;
        if EndsLimit(a[1..]) { EndsLimitOfRest(a); }
        LimitSplits(IsWord(a[0]), a[1..], b);
      }
    }
  }

  lemma AfterWordOrNot(b: string)
    requires b == "" || !IsWord(b[0])
    ensures Extract(true, b) == Extract(false, b)
  {
    if b != "" { NoMatchAtNonWord(true, b); NoMatchAtNonWord(false, b); }
  }

  /** The same for whole texts. */
  lemma LimitOfParts(a: string, b: string)
    requires Fit(a, b) && !(EndsLimit(a) && StartsNumber(b))
    ensures ExtractLimit(a + b).Some? <==> ExtractLimit(a).Some? || ExtractLimit(b).Some?
  {
    hide Extract, EndsLimit, StartsNumber;
    LimitSplits(false, a, b);
    if a != "" && IsWord(a[|a| - 1]) { AfterWordOrNot(b); }
  }

  // ---- Text in pieces ----

  const KEYWORDS: seq<string> := [
    "AS", "FROM", "JOIN", "LEFT", "ON", "WHERE", "AND", "DATE", "IN", "BETWEEN", "CURRENT_DATE", "INTERVAL", "days",
    "GROUP", "BY", "ORDER", "ASC", "DESC", "day", "SELECT", "CAST", "TIMESTAMP", "DAYS"]

  /** Symbols and spaces, then a keyword of the printer or a text given to it. */
  datatype Piece = Piece(symbols: string, body: string, given: bool)

  function Own(symbols: string, keyword: string): Piece { Piece(symbols, keyword, false) }

  function Given(symbols: string, text: string): Piece { Piece(symbols, text, true) }

  predicate IsKeywordPiece(p: Piece) { !p.given && p.body != "" }

  predicate HasMark(s: string) { SpaceRun(s) < |s| }

  /** A number given follows a mark or a keyword, never just a space after another text. */
  predicate GoodPiece(afterKeyword: bool, p: Piece) {
    && p.symbols != "" && NoWord(p.symbols)
    && (if p.given then HasMark(p.symbols) || afterKeyword || !StartsNumber(p.body)
        else p.body == "" || p.body in KEYWORDS)
  }

  predicate GoodPieces(afterKeyword: bool, ps: seq<Piece>)
    decreases |ps|
  {
    ps == [] || (GoodPiece(afterKeyword, ps[0]) && GoodPieces(IsKeywordPiece(ps[0]), ps[1..]))
  }

  function TextAfter(t: string, ps: seq<Piece>): string
    decreases |ps|
  {
    if ps == [] then t else TextAfter(t + ps[0].symbols + ps[0].body, ps[1..])
  }

  lemma {:induction false} GoodAppend(afterKeyword: bool, a: seq<Piece>, b: seq<Piece>)
    requires GoodPieces(afterKeyword, a) && GoodPieces(false, b)
    ensures GoodPieces(afterKeyword, a + b)
    decreases |a|
  {
    hide HasMark, StartsNumber, NoWord;
    if a == [] {
      assert a + b == b;
    } else {
      assert (a + b)[1..] == a[1..] + b;
      GoodAppend(IsKeywordPiece(a[0]), a[1..], b);
    }
  }

  lemma NoPieces()
    ensures GoodPieces(true, []) && GoodPieces(false, [])
  {
  }

  lemma GoodCons(afterKeyword: bool, p: Piece, ps: seq<Piece>)
    requires GoodPiece(afterKeyword, p) && GoodPieces(IsKeywordPiece(p), ps)
    ensures GoodPieces(afterKeyword, [p] + ps)
  {
    hide GoodPiece;
    assert ([p] + ps)[0] == p && ([p] + ps)[1..] == ps;
  }

  lemma GoodOne(afterKeyword: bool, a: Piece)
    requires GoodPiece(afterKeyword, a)
    ensures GoodPieces(afterKeyword, [a])
  {
    hide GoodPiece, GoodPieces;
    NoPieces();
    GoodCons(afterKeyword, a, []);
    assert [a] + [] == [a];
  }

  lemma GoodTwo(afterKeyword: bool, a: Piece, b: Piece)
    requires GoodPiece(afterKeyword, a) && GoodPiece(IsKeywordPiece(a), b)
    ensures GoodPieces(afterKeyword, [a, b])
  {
    hide GoodPiece, GoodPieces;
    GoodOne(IsKeywordPiece(a), b);
    GoodCons(afterKeyword, a, [b]);
    assert [a] + [b] == [a, b];
  }

  lemma GoodThree(afterKeyword: bool, a: Piece, b: Piece, c: Piece)
    requires GoodPiece(afterKeyword, a) && GoodPiece(IsKeywordPiece(a), b) && GoodPiece(IsKeywordPiece(b), c)
    ensures GoodPieces(afterKeyword, [a, b, c])
  {
    hide GoodPiece, GoodPieces;
    GoodTwo(IsKeywordPiece(a), b, c);
    GoodCons(afterKeyword, a, [b, c]);
    assert [a] + [b, c] == [a, b, c];
  }

  lemma {:induction false} TextAppend(t: string, a: seq<Piece>, b: seq<Piece>)
    ensures TextAfter(t, a + b) == TextAfter(TextAfter(t, a), b)
    decreases |a|
  {
    if a == [] {
      assert a + b == b;
    } else {
      assert (a + b)[1..] == a[1..] + b;
      TextAppend(t + a[0].symbols + a[0].body, a[1..], b);
    }
  }

  // ---- Keywords ----

  /** The keyword cannot be the end of the word "limit". */
  predicate NotLimitEnd(w: string) {
    w != "" && (LowerChar(w[|w| - 1]) != 't' || (|w| >= 4 && LowerChar(w[|w| - 4]) != 'i'))
  }

  /** Length and first three letters tell words apart here. */
  function Shape(w: string): (nat, char, char, char) {
    (|w|, if |w| > 0 then LowerChar(w[0]) else ' ', if |w| > 1 then LowerChar(w[1]) else ' ',
     if |w| > 2 then LowerChar(w[2]) else ' ')
  }

  const WRITE_SHAPES: set<(nat, char, char, char)> := {
    (4, 'd', 'r', 'o'), (6, 'd', 'e', 'l'), (6, 'u', 'p', 'd'), (6, 'i', 'n', 's'), (5, 'a', 'l', 't'),
    (8, 't', 'r', 'u'), (6, 'c', 'r', 'e'), (5, 'g', 'r', 'a'), (6, 'r', 'e', 'v'), (4, 'c', 'o', 'p'),
    (5, 'm', 'e', 'r'), (4, 'c', 'a', 'l'), (7, 'e', 'x', 'e')}

  lemma WriteWordShapes(w: string)
    requires Lower(w) in WRITE_WORDS
    ensures Shape(w) in WRITE_SHAPES
  {
    var l := Lower(w);
    assert |l| >= 4 by { WriteWordsAreLong(l); }
    assert Shape(w) == (|l|, l[0], l[1], l[2]);
  }

  lemma WriteWordsAreLong(l: string)
    requires l in WRITE_WORDS
    ensures |l| >= 4 && (|l|, l[0], l[1], l[2]) in WRITE_SHAPES
  {
  }

  predicate KeywordOk(w: string) {
    AllWord(w) && w != "" && !IsDigit(w[0]) && NotLimitEnd(w) && Shape(w) !in WRITE_SHAPES
  }

  lemma Keywords1()
    ensures KeywordOk("AS") && KeywordOk("FROM") && KeywordOk("JOIN") && KeywordOk("LEFT")
  {
  }

  lemma Keywords2()
    ensures KeywordOk("ON") && KeywordOk("WHERE") && KeywordOk("AND") && KeywordOk("DATE")
  {
  }

  lemma Keywords3()
    ensures KeywordOk("IN") && KeywordOk("BETWEEN") && KeywordOk("CURRENT_DATE") && KeywordOk("INTERVAL")
  {
  }

  lemma Keywords4()
    ensures KeywordOk("days") && KeywordOk("GROUP") && KeywordOk("BY") && KeywordOk("ORDER")
  {
  }

  lemma Keywords5()
    ensures KeywordOk("ASC") && KeywordOk("DESC") && KeywordOk("day") && KeywordOk("SELECT")
  {
  }

  lemma Keywords6()
    ensures KeywordOk("CAST") && KeywordOk("TIMESTAMP") && KeywordOk("DAYS")
  {
  }

  lemma KeywordFacts(w: string)
    requires w in KEYWORDS
    ensures KeywordOk(w)
  {
    hide KeywordOk;
    Keywords1();
    Keywords2();
    Keywords3();
    Keywords4();
    Keywords5();
    Keywords6();
  }

  lemma KeywordsAreNotWriteWords(w: string)
    requires w in KEYWORDS
    ensures !HasWriteWord(w)
  {
    hide Shape;
    KeywordFacts(w);
    WriteWordOfWord(w);
    if Lower(w) in WRITE_WORDS { WriteWordShapes(w); }
  }

  // ---- What a text in pieces shows ----

  ghost predicate GivenWriteWord(ps: seq<Piece>) { exists p :: p in ps && p.given && HasWriteWord(p.body) }

  ghost predicate GivenLimit(ps: seq<Piece>) { exists p :: p in ps && p.given && ExtractLimit(p.body).Some? }

  lemma PieceWriteWord(t: string, afterKeyword: bool, p: Piece)
    requires GoodPiece(afterKeyword, p)
    ensures HasWriteWord(t + p.symbols + p.body) <==> HasWriteWord(t) || (p.given && HasWriteWord(p.body))
  {
    hide HasWriteWord, StartsNumber;
    NoWriteWordInSymbols(p.symbols);
    WriteWordSplits(t, p.symbols);
    WriteWordSplits(t + p.symbols, p.body);
    if !p.given {
      if p.body == "" { NoWriteWordInSymbols(""); } else { KeywordsAreNotWriteWords(p.body); }
    }
  }

  lemma {:induction false} WriteWordsAfter(t: string, afterKeyword: bool, ps: seq<Piece>)
    requires GoodPieces(afterKeyword, ps)
    ensures HasWriteWord(TextAfter(t, ps)) <==> HasWriteWord(t) || GivenWriteWord(ps)
    decreases |ps|
  {
    hide HasWriteWord, GoodPiece;
    if ps != [] {
      PieceWriteWord(t, afterKeyword, ps[0]);
      WriteWordsAfter(t + ps[0].symbols + ps[0].body, IsKeywordPiece(ps[0]), ps[1..]);
      assert ps == [ps[0]] + ps[1..];
    }
  }

  ghost predicate EndsKeyword(t: string) {
    exists x, w :: t == x + w && w in KEYWORDS && (x == "" || !IsWord(x[|x| - 1]))
  }

  lemma LimitLettersAt(a: string, h: int)
    requires IsLimitAt(a, h)
    ensures forall i :: h <= i < h + 5 ==> IsWord(a[i])
    ensures LowerChar(a[h + 4]) == 't' && LowerChar(a[h + 1]) == 'i'
  {
    var l := Lower(a[h..h + 5]);
    forall i | h <= i < h + 5 ensures IsWord(a[i]) { assert l[i - h] == LowerChar(a[i]); }
    assert l[4] == LowerChar(a[h + 4]) && l[1] == LowerChar(a[h + 1]);
  }

  /** A mark after it takes a text out of reach of a number that would complete a clause. */
  lemma MarkEndsNoLimit(t: string, symbols: string)
    requires NoWord(symbols) && HasMark(symbols)
    ensures !EndsLimit(t + symbols)
  {
    hide IsLimitAt;
    var a := t + symbols;
    var m := SpaceRun(symbols);
    forall h: int | 0 <= h && h + 5 <= |a| && IsLimitAt(a, h) ensures !AllSpace(a[h + 5..]) {
      LimitLettersAt(a, h);
      assert a[|t| + m] == symbols[m];
      assert a[h + 5..][|t| + m - h - 5] == symbols[m];
    }
  }

  /** The end of a text that ends with a keyword, and the symbols after it. */
  lemma KeywordThenSymbols(t: string, symbols: string)
    requires EndsKeyword(t) && NoWord(symbols)
    ensures t != "" && IsWord(t[|t| - 1]) && !IsSpace(t[|t| - 1])
    ensures LowerChar(t[|t| - 1]) != 't' || (|t| >= 4 && LowerChar(t[|t| - 4]) != 'i')
    ensures forall i :: |t| <= i < |t + symbols| ==> !IsWord((t + symbols)[i])
  {
    hide KeywordOk;
    var x, w :| t == x + w && w in KEYWORDS && (x == "" || !IsWord(x[|x| - 1]));
    KeywordShape(w);
    assert t[|t| - 1] == w[|w| - 1] && (|w| >= 4 ==> t[|t| - 4] == w[|w| - 4]);
  }

  lemma KeywordEndsNoLimit(t: string, symbols: string)
    requires EndsKeyword(t) && NoWord(symbols)
    ensures !EndsLimit(t + symbols)
  {
    hide IsLimitAt, EndsKeyword;
    var a := t + symbols;
    KeywordThenSymbols(t, symbols);
    assert a[..|t|] == t;
    forall h: int | 0 <= h && h + 5 <= |a| && IsLimitAt(a, h) ensures !AllSpace(a[h + 5..]) {
      LimitLettersAt(a, h);
      assert h + 5 < |t| ==> a[h + 5..][|t| - 1 - h - 5] == a[|t| - 1];
    }
  }

  lemma KeywordShape(w: string)
    requires w in KEYWORDS
    ensures w != "" && IsWord(w[|w| - 1]) && !IsSpace(w[|w| - 1]) && NotLimitEnd(w) && !IsDigit(w[0]) && !IsSpace(w[0])
    ensures AllWord(w)
  {
    KeywordFacts(w);
    assert IsWord(w[0]) && IsWord(w[|w| - 1]);
  }

  lemma NoLimitInWord(w: string)
    requires AllWord(w)
    ensures ExtractLimit(w) == None
  {
    NoLimitFromWord(false, w);
  }

  lemma {:induction false} NoLimitFromWord(prev: bool, w: string)
    requires AllWord(w)
    ensures Extract(prev, w) == None
    decreases |w|
  {
    hide Num, MatchHere;
    if MatchHere(prev, w).Some? {
      var (k, j) := MatchHere(prev, w).value;
      MatchHasSpace(prev, w, k, j);
      assert false;
    } else if w != "" {
      NoLimitFromWord(IsWord(w[0]), w[1..]);
    }
  }

  lemma MatchHasSpace(prev: bool, t: string, k: nat, j: nat)
    requires MatchHere(prev, t) == Some((k, j))
    ensures 5 < |t| && !IsWord(t[5])
  {
    assert t[5..k][0] == t[5];
  }

  lemma {:induction false} NoLimitInSymbols(prev: bool, s: string)
    requires NoWord(s)
    ensures Extract(prev, s) == None
    decreases |s|
  {
    hide MatchHere;
    if s != "" {
      NoMatchAtNonWord(prev, s);
      NoLimitInSymbols(IsWord(s[0]), s[1..]);
    } else {
      NothingInEmpty(prev);
    }
  }

  lemma SymbolsStartNoNumber(s: string)
    requires NoWord(s)
    ensures !StartsNumber(s)
  {
  }

  lemma PieceLimit(t: string, afterKeyword: bool, p: Piece)
    requires GoodPiece(afterKeyword, p) && (afterKeyword ==> EndsKeyword(t))
    ensures ExtractLimit(t + p.symbols + p.body).Some? <==>
      ExtractLimit(t).Some? || (p.given && ExtractLimit(p.body).Some?)
    ensures IsKeywordPiece(p) ==> EndsKeyword(t + p.symbols + p.body)
  {
    hide Extract, EndsLimit, StartsNumber, KeywordOk, HasMark;
    SymbolsStartNoNumber(p.symbols);
    NoLimitInSymbols(false, p.symbols);
    LimitOfParts(t, p.symbols);
    if p.given {
      if HasMark(p.symbols) { MarkEndsNoLimit(t, p.symbols); }
      else if afterKeyword { KeywordEndsNoLimit(t, p.symbols); }
    } else {
      OwnBody(p.body);
    }
    LimitOfParts(t + p.symbols, p.body);
  }

  lemma OwnBody(w: string)
    requires w == "" || w in KEYWORDS
    ensures !StartsNumber(w) && ExtractLimit(w) == None
  {
    hide ExtractLimit;
    if w != "" { KeywordShape(w); }
    NoLimitInWord(w);
  }

  lemma {:induction false} LimitAfter(t: string, afterKeyword: bool, ps: seq<Piece>)
    requires GoodPieces(afterKeyword, ps) && (afterKeyword ==> EndsKeyword(t))
    ensures ExtractLimit(TextAfter(t, ps)).Some? <==> ExtractLimit(t).Some? || GivenLimit(ps)
    decreases |ps|
  {
    hide ExtractLimit, GoodPiece, EndsKeyword, IsKeywordPiece;
    if ps != [] {
      PieceLimit(t, afterKeyword, ps[0]);
      LimitAfter(t + ps[0].symbols + ps[0].body, IsKeywordPiece(ps[0]), ps[1..]);
      assert ps == [ps[0]] + ps[1..];
    }
  }

  lemma SelectReads(t: string)
    requires |t| > 6 && t[..6] == "SELECT" && !IsWord(t[6])
    ensures ReadOnly(t)
  {
    assert t[0] == 'S' && SpaceRun(t) == 0 && LStrip(t) == t;
    assert Lower(t[..6]) == "select";
  }

  // ---- A text in pieces that ends with a LIMIT clause ----

  lemma {:induction false} TextGrows(t: string, ps: seq<Piece>)
    ensures |TextAfter(t, ps)| >= |t| && TextAfter(t, ps)[..|t|] == t
    decreases |ps|
  {
    if ps != [] {
      TextGrows(t + ps[0].symbols + ps[0].body, ps[1..]);
      assert (t + ps[0].symbols + ps[0].body)[..|t|] == t;
    }
  }

  lemma FirstIsGood(afterKeyword: bool, ps: seq<Piece>)
    requires ps != [] && GoodPieces(afterKeyword, ps)
    ensures ps[0].symbols != "" && !IsWord(ps[0].symbols[0])
  {
  }

  /** The text after SELECT begins with a symbol. */
  lemma BodyBegins(ps: seq<Piece>)
    requires ps != [] && GoodPieces(true, ps)
    ensures var body := TextAfter("SELECT", ps); |body| > 6 && body[..6] == "SELECT" && !IsWord(body[6])
  {
    hide GoodPieces;
    FirstIsGood(true, ps);
    var t, body := "SELECT" + ps[0].symbols + ps[0].body, TextAfter("SELECT", ps);
    TextGrows(t, ps[1..]);
    assert t[6] == ps[0].symbols[0] && t[..6] == "SELECT";
    assert body == TextAfter(t, ps[1..]);
    assert body[..|t|][6] == t[6] && body[..|t|][..6] == t[..6];
  }

  lemma SelectIsClean()
    ensures !HasWriteWord("SELECT") && ExtractLimit("SELECT") == None && EndsKeyword("SELECT")
  {
    hide HasWriteWord, ExtractLimit;
    KeywordsAreNotWriteWords("SELECT");
    OwnBody("SELECT");
    assert "SELECT" == "" + "SELECT" && "SELECT" in KEYWORDS;
  }

  lemma LastClause(body: string, sep: char, n: nat)
    requires IsSpace(sep)
    ensures HasWriteWord(Clausal(body, sep, n)) <==> HasWriteWord(body)
  {
    hide HasWriteWord, Dec;
    assert LimitClause(n) == "LIMIT" + (" " + Dec(n));
    NoWriteWordInSymbols([sep]);
    NoWriteWordInSymbols(" ");
    LimitIsNoWriteWord();
    DecIsNoWriteWord(n);
    WriteWordSplits(" ", Dec(n));
    WriteWordSplits("LIMIT", " " + Dec(n));
    WriteWordSplits(body, [sep]);
    WriteWordSplits(body + [sep], LimitClause(n));
  }

  lemma LimitIsNoWriteWord()
    ensures !HasWriteWord("LIMIT")
  {
    hide HasWriteWord;
    WriteWordOfWord("LIMIT");
    if Lower("LIMIT") in WRITE_WORDS { WriteWordShapes("LIMIT"); }
    assert Shape("LIMIT") == (5, 'l', 'i', 'm');
  }

  lemma DecIsNoWriteWord(n: nat)
    ensures !HasWriteWord(Dec(n))
  {
    hide HasWriteWord, Dec;
    var d := Dec(n);
    WriteWordOfWord(d);
    assert IsDigit(d[0]) && Lower(d)[0] == d[0];
    if Lower(d) in WRITE_WORDS { WriteWordsAreWords(Lower(d)); }
  }

  /** Any text of SELECT, keywords, symbols and given texts that ends with a LIMIT clause is
      read-only and clean as it stands. It has a write word exactly when a given text has one,
      and before its last clause it shows a LIMIT exactly when a given text does. */
  lemma PiecesShowOnlyWhatIsGiven(ps: seq<Piece>, sep: char, n: nat)
    requires ps != [] && GoodPieces(true, ps) && IsSpace(sep)
    ensures var body := TextAfter("SELECT", ps);
      && body != "" && !IsSpace(body[0])
      && Trim(Clausal(body, sep, n)) == Clausal(body, sep, n) && ReadOnly(Clausal(body, sep, n))
      && (HasWriteWord(Clausal(body, sep, n)) <==> GivenWriteWord(ps))
      && (ExtractLimit(body).Some? <==> GivenLimit(ps))
      && ExtractLimit(Clausal(body, sep, n)) == Some(ExtractLimit(body).GetOr(n))
  {
    hide GoodPieces, HasWriteWord, ExtractLimit, Trim, ReadOnly, TextAfter, GivenWriteWord, GivenLimit, LimitClause;
    var body := TextAfter("SELECT", ps);
    SelectIsClean();
    WriteWordsAfter("SELECT", true, ps);
    LimitAfter("SELECT", true, ps);
    LastClause(body, sep, n);
    BodyBegins(ps);
    assert body[..6][0] == 'S';
    assert Clausal(body, sep, n)[..6] == body[..6] && Clausal(body, sep, n)[6] == body[6];
    SelectReads(Clausal(body, sep, n));
    ClausalIsTrimmed(body, sep, n);
    RenderedLimitRead(body, sep, n);
  }

  // ---- Texts written out ----

  lemma TextOfOneMore(t: string, p: Piece, rest: seq<Piece>)
    ensures TextAfter(t, [p] + rest) == TextAfter(t + p.symbols + p.body, rest) && TextAfter(t, []) == t
  {
    assert ([p] + rest)[1..] == rest;
  }

  lemma TextOfFour(t: string, a: Piece, b: Piece, c: Piece, d: Piece)
    ensures TextAfter(t, [a, b, c, d])
         == t + a.symbols + a.body + b.symbols + b.body + c.symbols + c.body + d.symbols + d.body
  {
    hide TextAfter;
    TextOfOneMore(t, a, [b, c, d]);
    assert [a] + [b, c, d] == [a, b, c, d] && [b] + [c, d] == [b, c, d] && [c] + [d] == [c, d] && [d] + [] == [d];
    var u := t + a.symbols + a.body;
    TextOfOneMore(u, b, [c, d]);
    var v := u + b.symbols + b.body;
    TextOfOneMore(v, c, [d]);
    TextOfOneMore(v + c.symbols + c.body, d, []);
    TextOfOneMore(v + c.symbols + c.body + d.symbols + d.body, d, []);
  }

  lemma Associate(t: string, a: string, b: string, c: string, d: string, e: string, f: string, g: string, h: string)
    ensures t + a + b + c + d + e + f + g + h == t + (a + b + c + d + e + f + g + h)
  {
  }

  predicate PlainWord(w: string) { AllWord(w) && Shape(w) !in WRITE_SHAPES && !StartsNumber(w) }

  /** Nothing the guardrail looks for. */
  ghost predicate Harmless(text: string) { !HasWriteWord(text) && ExtractLimit(text) == None }

  lemma PlainIsHarmless(w: string)
    requires PlainWord(w)
    ensures Harmless(w)
  {
    hide HasWriteWord, ExtractLimit, Shape;
    WriteWordOfWord(w);
    if Lower(w) in WRITE_WORDS { WriteWordShapes(w); }
    NoLimitInWord(w);
  }

  lemma Joined(t: string, symbols: string, w: string)
    requires Harmless(t) && PlainWord(w) && symbols != "" && NoWord(symbols)
    ensures Harmless(t + symbols + w)
  {
    hide HasWriteWord, ExtractLimit, AllWord, Shape, StartsNumber;
    PlainIsHarmless(w);
    PieceWriteWord(t, false, Given(symbols, w));
    PieceLimit(t, false, Given(symbols, w));
  }
}
