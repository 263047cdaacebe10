/** The canonical form of a statement and its tokens: text literals and quoted identifiers, as
    PostgreSQL's lexical rules delimit them, and the code between them. */
module StatementTokens {
  import opened AsciiText
  import opened Fingerprint

  // ---- The canonical form and the tokens of a statement ----

  /** A text literal or a quoted identifier, and the code up to the next one. */
  datatype Part = Part(mark: char, text: string, code: string)

  /** A statement as its reader splits it. */
  datatype Statement = Statement(head: string, parts: seq<Part>)

  function PartsText(parts: seq<Part>): string {
    if parts == [] then ""
    else [parts[0].mark] + parts[0].text + [parts[0].mark] + parts[0].code + PartsText(parts[1..])
  }

  function TextOf(s: Statement): string { s.head + PartsText(s.parts) }

  function ModeEnd(m: Mode, t: string): Mode
    decreases |t|
  {
    if t == "" then m else ModeEnd(ModeAfter(m, t[0]), t[1..])
  }

  predicate IsMark(c: char) { c == '\'' || c == '"' }

  /** Read from m on, the text is code throughout: no literal, quoted identifier or comment. */
  predicate IsCode(m: Mode, t: string)
    decreases |t|
  {
    InCode(m) && (t == "" || (!IsMark(t[0]) && IsCode(ModeAfter(m, t[0]), t[1..])))
  }

  function Opened(mark: char): Mode { if mark == '\'' then Single else Double }

  function Shut(mark: char): Mode { if mark == '\'' then Closed else Code }

  predicate IsPart(p: Part) { IsMark(p.mark) && p.mark !in p.text && IsCode(Shut(p.mark), p.code) }

  predicate IsStatement(s: Statement) { IsCode(Code, s.head) && forall p :: p in s.parts ==> IsPart(p) }

  /** Code up to letter case and spacing. */
  function CodeRead(m: Mode, code: string): string { KeptFrom(m, false, code) }

  predicate SamePart(p: Part, q: Part) {
    p.mark == q.mark && p.text == q.text && CodeRead(Shut(p.mark), p.code) == CodeRead(Shut(q.mark), q.code)
  }

  /** The same literals and quoted identifiers, to the letter, between the same code. */
  predicate SameTokens(s: Statement, t: Statement) {
    && CodeRead(Code, s.head) == CodeRead(Code, t.head)
    && |s.parts| == |t.parts| && forall k :: 0 <= k < |s.parts| ==> SamePart(s.parts[k], t.parts[k])
  }

  lemma StaysOpen(m: Mode, c: char)
    requires InCode(m) && !m.Closed? && !IsMark(c)
    ensures !ModeAfter(m, c).Closed?
    ensures Lower(" ") == " " && Lower("") == "" && Lower([c]) == [LowerChar(c)]
  {
  }

  /** From its beginning, or after a quoted identifier, code is read as its normal form is. */
  lemma {:induction false} CodeIsCollapsed(m: Mode, run: bool, code: string)
    requires IsCode(m, code) && !m.Closed?
    ensures KeptFrom(m, run, code) == Lower(CollapseFrom(run, code))
    decreases |code|
  {
    hide ModeAfter, IsSpace, LowerChar;
    if code != "" {
      var next := ModeAfter(m, code[0]);
      StaysOpen(m, code[0]);
      CodeIsCollapsed(next, IsSpace(code[0]), code[1..]);
      var head := if IsSpace(code[0]) then (if run then "" else " ") else [code[0]];
      LowerAppend(head, CollapseFrom(IsSpace(code[0]), code[1..]));
    }
  }

  /** What is kept of a text does not depend on what follows, but for the blank at its end. */
  lemma {:induction false} KeptAppend(m: Mode, run: bool, a: string, b: string)
    ensures KeptFrom(m, run, a + b) == KeptFrom(m, run, a) + KeptFrom(ModeEnd(m, a), LastRun(m, run, a), b)
    decreases |a|
  {
    hide KeptOf, ModeAfter;
    if a == "" {
      assert a + b == b;
    } else {
      assert (a + b)[1..] == a[1..] + b && (a + b)[0] == a[0];
      KeptAppend(ModeAfter(m, a[0]), InCode(m) && IsSpace(a[0]), a[1..], b);
    }
  }

  function LastRun(m: Mode, run: bool, t: string): bool
    decreases |t|
  {
    if t == "" then run else LastRun(ModeAfter(m, t[0]), InCode(m) && IsSpace(t[0]), t[1..])
  }

  lemma {:induction false} CodeStaysCode(m: Mode, t: string)
    requires IsCode(m, t)
    ensures InCode(ModeEnd(m, t))
    decreases |t|
  {
    if t != "" { CodeStaysCode(ModeAfter(m, t[0]), t[1..]); }
  }

  lemma {:induction false} CodeHasNoMark(m: Mode, run: bool, t: string)
    requires IsCode(m, t)
    ensures forall c :: c in KeptFrom(m, run, t) ==> !IsMark(c)
    decreases |t|
  {
    if t != "" { CodeHasNoMark(ModeAfter(m, t[0]), InCode(m) && IsSpace(t[0]), t[1..]); }
  }

  lemma {:induction false} QuotedIsKept(mark: char, text: string, rest: string)
    requires IsMark(mark) && mark !in text
    ensures KeptFrom(Opened(mark), false, text + [mark] + rest) == text + [mark] + KeptFrom(Shut(mark), false, rest)
    decreases |text|
  {
    var t := text + [mark] + rest;
    if text == "" {
      assert t == [mark] + rest && t[1..] == rest;
    } else {
      assert t[0] == text[0] && t[0] in text && t[1..] == text[1..] + [mark] + rest;
      QuotedIsKept(mark, text[1..], rest);
    }
  }

  lemma OpenIsKept(m: Mode, run: bool, mark: char, rest: string)
    requires InCode(m) && IsMark(mark)
    ensures KeptFrom(m, run, [mark] + rest) == [mark] + KeptFrom(Opened(mark), false, rest)
  {
    assert ([mark] + rest)[1..] == rest;
  }

  /** What is kept of the parts: each quoted text as it is, and the code after it. */
  function PartsRead(parts: seq<Part>): string {
    if parts == [] then ""
    else
      var p := parts[0];
      [p.mark] + (p.text + [p.mark] + (CodeRead(Shut(p.mark), p.code) + PartsRead(parts[1..])))
  }

  lemma {:induction false} PartsAreKept(m: Mode, run: bool, parts: seq<Part>)
    requires InCode(m) && forall p :: p in parts ==> IsPart(p)
    ensures KeptFrom(m, run, PartsText(parts)) == PartsRead(parts)
    decreases |parts|
  {
    hide KeptFrom, IsCode, IsMark;
    if parts == [] {
      KeptOfNothing(m, run);
    } else {
      var p, more := parts[0], PartsText(parts[1..]);
      assert p in parts && IsPart(p);
      var rest := p.text + [p.mark] + (p.code + more);
      assert PartsText(parts) == [p.mark] + rest;
      OpenIsKept(m, run, p.mark, rest);
      QuotedIsKept(p.mark, p.text, p.code + more);
      KeptAppend(Shut(p.mark), false, p.code, more);
      CodeStaysCode(Shut(p.mark), p.code);
      PartsAreKept(ModeEnd(Shut(p.mark), p.code), LastRun(Shut(p.mark), false, p.code), parts[1..]);
    }
  }

  lemma KeptOfNothing(m: Mode, run: bool)
    ensures KeptFrom(m, run, "") == ""
  {
  }

  lemma StatementIsKept(s: Statement)
    requires IsStatement(s)
    ensures KeptFrom(Code, false, TextOf(s)) == CodeRead(Code, s.head) + PartsRead(s.parts)
  {
    hide KeptFrom, IsCode;
    KeptAppend(Code, false, s.head, PartsText(s.parts));
    CodeStaysCode(Code, s.head);
    PartsAreKept(ModeEnd(Code, s.head), LastRun(Code, false, s.head), s.parts);
  }

  predicate NoMark(t: string) { forall c :: c in t ==> !IsMark(c) }

  /** Texts without marks before something that begins with a mark, or ends: they agree. */
  lemma FirstMarkSplits(a: string, x: string, b: string, y: string)
    requires NoMark(a) && NoMark(b) && a + x == b + y
    requires (x == "" || IsMark(x[0])) && (y == "" || IsMark(y[0]))
    ensures a == b && x == y
  {
    hide IsMark;
    var s, t := a + x, b + y;
    assert forall i :: 0 <= i < |a| ==> s[i] == a[i] && a[i] in a;
    assert forall i :: 0 <= i < |b| ==> t[i] == b[i] && b[i] in b;
    assert x != "" ==> s[|a|] == x[0];
    assert y != "" ==> t[|b|] == y[0];
    assert |a| == |b|;
    assert s[..|a|] == a && t[..|b|] == b && s[|a|..] == x && t[|b|..] == y;
  }

  lemma MarkSplits(mark: char, a: string, x: string, b: string, y: string)
    requires mark !in a && mark !in b && a + [mark] + x == b + [mark] + y
    ensures a == b && x == y
  {
    var s, t := a + [mark] + x, b + [mark] + y;
    assert s[|a|] == mark && t[|b|] == mark;
    assert forall i :: 0 <= i < |a| ==> s[i] == a[i] != mark;
    assert forall i :: 0 <= i < |b| ==> t[i] == b[i] != mark;
    assert |a| == |b|;
    assert s[..|a|] == a && t[..|b|] == b && s[|a| + 1..] == x && t[|b| + 1..] == y;
  }

  lemma PartsBegin(parts: seq<Part>)
    requires forall p :: p in parts ==> IsPart(p)
    ensures PartsRead(parts) == "" || IsMark(PartsRead(parts)[0])
    ensures parts != [] ==> PartsRead(parts) != "" && PartsRead(parts)[0] == parts[0].mark
  {
    if parts != [] { assert parts[0] in parts; }
  }

  lemma PartCode(p: Part)
    requires IsPart(p)
    ensures NoMark(CodeRead(Shut(p.mark), p.code)) && IsMark(p.mark) && p.mark !in p.text
  {
    hide KeptFrom;
    CodeHasNoMark(Shut(p.mark), false, p.code);
  }

  lemma FirstPartsAgreeIff(p: Part, x: string, q: Part, y: string)
    requires IsPart(p) && IsPart(q) && (x == "" || IsMark(x[0])) && (y == "" || IsMark(y[0]))
    ensures [p.mark] + (p.text + [p.mark] + (CodeRead(Shut(p.mark), p.code) + x))
         == [q.mark] + (q.text + [q.mark] + (CodeRead(Shut(q.mark), q.code) + y))
      <==> SamePart(p, q) && x == y
  {
    hide IsPart, CodeRead, IsMark;
    PartCode(p);
    PartCode(q);
    var c, d := CodeRead(Shut(p.mark), p.code), CodeRead(Shut(q.mark), q.code);
    var u, v := p.text + [p.mark] + (c + x), q.text + [q.mark] + (d + y);
    if [p.mark] + u == [q.mark] + v {
      assert ([p.mark] + u)[0] == p.mark && ([q.mark] + v)[0] == q.mark;
      assert ([p.mark] + u)[1..] == u && ([q.mark] + v)[1..] == v;
      MarkSplits(p.mark, p.text, c + x, q.text, d + y);
      FirstMarkSplits(c, x, d, y);
    }
  }

  /** What is kept of two lists of parts agrees exactly when they are the same. */
  lemma {:induction false} PartsAgreeIff(ps: seq<Part>, qs: seq<Part>)
    requires forall p :: p in ps ==> IsPart(p)
    requires forall q :: q in qs ==> IsPart(q)
    ensures PartsRead(ps) == PartsRead(qs) <==>
      |ps| == |qs| && forall k :: 0 <= k < |ps| ==> SamePart(ps[k], qs[k])
    decreases |ps|
  {
    hide IsPart, CodeRead, IsMark;
    PartsBegin(ps);
    PartsBegin(qs);
    if ps != [] && qs != [] {
      var p, q := ps[0], qs[0];
      assert p in ps && q in qs;
      assert (forall x :: x in ps[1..] ==> x in ps) && forall x :: x in qs[1..] ==> x in qs;
      PartsBegin(ps[1..]);
      PartsBegin(qs[1..]);
      FirstPartsAgreeIff(p, PartsRead(ps[1..]), q, PartsRead(qs[1..]));
      PartsAgreeIff(ps[1..], qs[1..]);
      assert (forall k :: 0 <= k < |ps| - 1 ==> ps[1..][k] == ps[k + 1]) && forall k :: 0 <= k < |qs| - 1 ==>
        qs[1..][k] == qs[k + 1];
    }
  }

  lemma HeadCode(s: Statement)
    requires IsStatement(s)
    ensures NoMark(CodeRead(Code, s.head))
  {
    hide KeptFrom;
    CodeHasNoMark(Code, false, s.head);
  }

  /** Statements without comments have the same canonical form exactly when they have the same
      tokens: the same literals and quoted identifiers, to the letter and in order, and between
      them the same code up to letter case and spacing. */
  lemma CanonicalIffSameTokens(s: Statement, t: Statement)
    requires IsStatement(s) && Tight(TextOf(s)) && OrdinaryQuotes(TextOf(s))
    requires IsStatement(t) && Tight(TextOf(t)) && OrdinaryQuotes(TextOf(t))
    ensures Canonical(TextOf(s)) == Canonical(TextOf(t)) <==> SameTokens(s, t)
  {
    hide KeptFrom, IsPart, IsMark, TextOf, CodeRead, SamePart, Trim, Tight;
    TightIsTrimmed(TextOf(s));
    TightIsTrimmed(TextOf(t));
    StatementIsKept(s);
    StatementIsKept(t);
    HeadCode(s);
    HeadCode(t);
    PartsBegin(s.parts);
    PartsBegin(t.parts);
    PartsAgreeIff(s.parts, t.parts);
    if Canonical(TextOf(s)) == Canonical(TextOf(t)) {
      FirstMarkSplits(CodeRead(Code, s.head), PartsRead(s.parts), CodeRead(Code, t.head), PartsRead(t.parts));
    }
  }
}
