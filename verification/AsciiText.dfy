/** ASCII character classes, trimming, and decimal numerals, as Python's `str` and `re`
    treat them. Characters beyond ASCII belong to no class. */
module AsciiText {
  predicate IsSpace(c: char) {
    (9 as char <= c <= 13 as char) || (28 as char <= c <= 31 as char) || c == ' '
  }

  predicate IsDigit(c: char) { '0' <= c <= '9' }

  predicate IsUpper(c: char) { 'A' <= c <= 'Z' }

  predicate IsLower(c: char) { 'a' <= c <= 'z' }

  /** The class `\w`. */
  predicate IsWord(c: char) { IsDigit(c) || IsUpper(c) || IsLower(c) || c == '_' }

  function LowerChar(c: char): (r: char)
    ensures if IsUpper(c) then r as int - 'a' as int == c as int - 'A' as int else r == c
  {
    if IsUpper(c) then ((c as int) + 32) as char else c
  }

  function Lower(s: string): (r: string)
    ensures |r| == |s| && forall i :: 0 <= i < |s| ==> r[i] == LowerChar(s[i])
  {
    seq(|s|, i requires 0 <= i < |s| => LowerChar(s[i]))
  }

  predicate AllSpace(s: string) { forall i :: 0 <= i < |s| ==> IsSpace(s[i]) }

  predicate AllDigit(s: string) { forall i :: 0 <= i < |s| ==> IsDigit(s[i]) }

  /** Length of the longest run of whitespace at the start. */
  function SpaceRun(s: string): (n: nat)
    ensures n <= |s| && AllSpace(s[..n]) && (n < |s| ==> !IsSpace(s[n]))
  {
    if s == "" || !IsSpace(s[0]) then 0 else SpaceRun(s[1..]) + 1
  }

  /** Length of the longest run of digits at the start. */
  function DigitRun(s: string): (n: nat)
    ensures n <= |s| && AllDigit(s[..n]) && (n < |s| ==> !IsDigit(s[n]))
  {
    if s == "" || !IsDigit(s[0]) then 0 else DigitRun(s[1..]) + 1
  }

  lemma SpaceRunExact(s: string, n: nat)
    requires n <= |s| && AllSpace(s[..n]) && (n < |s| ==> !IsSpace(s[n]))
    ensures SpaceRun(s) == n
  {
    if n > 0 {
      assert s[0] == s[..n][0];
      assert s[1..][..n - 1] == s[..n][1..];
      SpaceRunExact(s[1..], n - 1);
    }
  }

  lemma DigitRunExact(s: string, n: nat)
    requires n <= |s| && AllDigit(s[..n]) && (n < |s| ==> !IsDigit(s[n]))
    ensures DigitRun(s) == n
  {
    if n > 0 {
      assert s[0] == s[..n][0];
      assert s[1..][..n - 1] == s[..n][1..];
      DigitRunExact(s[1..], n - 1);
    }
  }

  function LStrip(s: string): string { s[SpaceRun(s)..] }

  /** Splits off the longest tail of characters satisfying `drop`. */
  function RStripLength(s: string, drop: char -> bool): (n: nat)
    ensures n <= |s| && (forall i :: n <= i < |s| ==> drop(s[i])) && (n > 0 ==> !drop(s[n - 1]))
  {
    if s == "" then 0
    else if drop(s[|s| - 1]) then RStripLength(s[..|s| - 1], drop)
    else |s|
  }

  function RStrip(s: string, drop: char -> bool): string { s[..RStripLength(s, drop)] }

  function Strip(s: string): string { RStrip(LStrip(s), IsSpace) }

  /** Stripping takes off spaces only, and all of them. */
  lemma StripMeans(s: string) returns (n: nat, m: nat)
    ensures n <= m <= |s| && Strip(s) == s[n..m] && AllSpace(s[..n]) && AllSpace(s[m..])
    ensures Strip(s) != "" ==> !IsSpace(Strip(s)[0]) && !IsSpace(Strip(s)[|Strip(s)| - 1])
  {
    n := SpaceRun(s);
    m := n + RStripLength(s[n..], IsSpace);
    forall i | m <= i < |s| ensures IsSpace(s[i]) { assert s[i] == s[n..][i - n]; }
  }

  lemma StripPadded(before: string, text: string, after: string)
    requires AllSpace(before) && AllSpace(after)
    requires text != "" && !IsSpace(text[0]) && !IsSpace(text[|text| - 1])
    ensures Strip(before + text + after) == text
  {
    hide IsSpace;
    var s, t := before + text + after, text + after;
    assert s[..|before|] == before && s[|before|..] == t;
    SpaceRunExact(s, |before|);
    var n := RStripLength(t, IsSpace);
    assert forall i :: |text| <= i < |t| ==> t[i] == after[i - |text|];
    assert t[|text| - 1] == text[|text| - 1] && t[..|text|] == text;
  }

  lemma StripTight(s: string)
    requires s != "" && !IsSpace(s[0]) && !IsSpace(s[|s| - 1])
    ensures Strip(s) == s
  {
  }

  predicate IsSemicolon(c: char) { c == ';' }

  /** A statement without surrounding spaces and then without final semicolons. */
  function Trim(sql: string): string { RStrip(Strip(sql), IsSemicolon) }

  /** Trimming leaves no semicolon at the end, and takes off nothing but semicolons after the spaces. */
  lemma TrimMeans(sql: string)
    ensures Trim(sql) <= Strip(sql) && forall i :: |Trim(sql)| <= i < |Strip(sql)| ==> Strip(sql)[i] == ';'
    ensures Trim(sql) != "" ==> Trim(sql)[|Trim(sql)| - 1] != ';'
  {
    hide Strip;
  }

  // ---- Decimal numerals ----

  function Digit(n: nat): (c: char)
    requires n < 10
    ensures IsDigit(c)
  {
    ('0' as int + n) as char
  }

  function Dec(n: nat): (s: string)
    ensures s != "" && AllDigit(s)
  {
    if n < 10 then [Digit(n)] else Dec(n / 10) + [Digit(n % 10)]
  }

  /** `int` of a string of digits. */
  function Num(s: string): nat
    requires AllDigit(s)
  {
    if s == "" then 0 else Num(s[..|s| - 1]) * 10 + (s[|s| - 1] as int - '0' as int)
  }

  /** A printed number reads back as itself. */
  lemma {:induction false} NumDec(n: nat)
    ensures Num(Dec(n)) == n
  {
    if n >= 10 {
      NumDec(n / 10);
      assert Dec(n)[..|Dec(n)| - 1] == Dec(n / 10);
    }
  }
}
