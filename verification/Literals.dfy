/** Filter values as SQL literals: checking them against a dimension's data type, printing
    them, and reading printed ones back. */
module Literals {
  import opened Wrappers
  import opened AsciiText
  import opened Calendar

  datatype Clock = Clock(hour: int, minute: int, second: int)

  datatype Literal =
    | IntegerLiteral(n: int)
    | NumericLiteral(r: real)
    | DateLiteral(date: Date, text: string)
    | TimestampLiteral(date: Date, time: Clock)
    | TextLiteral(s: string)

  datatype LiteralError = InvalidFilterValue

  /** Python's `float` of a text, and `str` of the result. */
  datatype Floats = Floats(parse: string -> Option<real>, format: real -> string)

  // ---- Reading integers ----

  /** Digits with single underscores between them, as `int` accepts. */
  predicate DigitGroups(s: string) {
    s != "" && IsDigit(s[0]) && (|s| == 1 || DigitGroups(s[1..]) || (s[1] == '_' && DigitGroups(s[2..])))
  }

  function DigitsOnly(s: string): (d: string)
    ensures AllDigit(d)
  {
    if s == "" then "" else (if IsDigit(s[0]) then [s[0]] else "") + DigitsOnly(s[1..])
  }

  function ParseInt(value: string): Option<int> {
    var text := Strip(value);
    if text == "" then None
    else if text[0] == '-' then (if DigitGroups(text[1..]) then Some(-(Num(DigitsOnly(text[1..])) as int)) else None)
    else
      var digits := if text[0] == '+' then text[1..] else text;
      if DigitGroups(digits) then Some(Num(DigitsOnly(digits))) else None
  }

  function PrintInt(n: int): string {
    if n < 0 then "-" + Dec(-n) else Dec(n)
  }

  // ---- Reading dates and timestamps ----

  /** A field of one or two digits between lo and hi. */
  function ParseField(s: string, lo: int, hi: int): Option<int> {
    if 1 <= |s| <= 2 && AllDigit(s) && lo <= Num(s) <= hi then Some(Num(s)) else None
  }

  /** Where the field starting at `from` ends: at the first `stop` one or two places on. */
  function FieldEnd(s: string, from: nat, stop: char): Option<nat> {
    if from + 1 < |s| && s[from + 1] == stop then Some(from + 1)
    else if from + 2 < |s| && s[from + 2] == stop then Some(from + 2)
    else None
  }

  /** The format "%Y-%m-%d". The day may have a space for its first digit. */
  function ParseDate(text: string): (r: Option<Date>)
    ensures r.Some? ==> ValidDate(r.value)
  {
    if |text| < 8 || !AllDigit(text[..4]) || text[4] != '-' then None
    else
      var end := FieldEnd(text, 5, '-');
      if end.None? then None
      else
        var dayText := text[end.value + 1..];
        var day := ParseField(if |dayText| == 2 && dayText[0] == ' ' then dayText[1..] else dayText, 1, 31);
        var month := ParseField(text[5..end.value], 1, 12);
        if month.None? || day.None? then None
        else
          var date := Date(Num(text[..4]), month.value, day.value);
          if ValidDate(date) then Some(date) else None
  }

  /** The format "%H:%M:%S". */
  function ParseClock(text: string): Option<Clock> {
    var h := FieldEnd(text, 0, ':');
    if h.None? then None
    else
      var m := FieldEnd(text, h.value + 1, ':');
      if m.None? then None
      else
        var hour, minute := ParseField(text[..h.value], 0, 23), ParseField(text[h.value + 1..m.value], 0, 59);
        var second := ParseField(text[m.value + 1..], 0, 59);
        if hour.None? || minute.None? || second.None? then None
        else Some(Clock(hour.value, minute.value, second.value))
  }

  /** A date and a time separated by whitespace or a T of either case; failing that a date
      alone, at midnight. */
  function ParseTimestamp(text: string): (r: Option<(Date, Clock)>)
    ensures r.Some? ==> ValidDate(r.value.0)
  {
    ParseTimestampAt(text, |text|)
  }

  function ParseTimestampAt(text: string, n: nat): (r: Option<(Date, Clock)>)
    requires n <= |text|
    ensures r.Some? ==> ValidDate(r.value.0)
  {
    if n == 0 then
      var date := ParseDate(text);
      if date.None? then None else Some((date.value, Clock(0, 0, 0)))
    else
      var i := n - 1;
      var date := ParseDate(text[..i]);
      var time := ParseClock(if IsSpace(text[i]) then LStrip(text[i + 1..]) else text[i + 1..]);
      if (IsSpace(text[i]) || LowerChar(text[i]) == 't') && date.Some? && time.Some? then Some((date.value, time.value))
      else ParseTimestampAt(text, i)
  }

  // ---- A filter value as a literal ----

  function ReadValue(floats: Floats, dataType: string, value: string): Result<Literal, LiteralError> {
    if dataType == "integer" then
      var n := ParseInt(value);
      if n.None? then Err(InvalidFilterValue) else Ok(IntegerLiteral(n.value))
    else if dataType == "numeric" then
      var r := floats.parse(Strip(value));
      if r.None? then Err(InvalidFilterValue) else Ok(NumericLiteral(r.value))
    else if dataType == "date" then
      var d := ParseDate(Strip(value));
      if d.None? then Err(InvalidFilterValue) else Ok(DateLiteral(d.value, Strip(value)))
    else if dataType == "timestamp" then
      var t := ParseTimestamp(Strip(value));
      if t.None? then Err(InvalidFilterValue) else Ok(TimestampLiteral(t.value.0, t.value.1))
    else Ok(TextLiteral(value))
  }

  function Pad(n: int, width: nat): string {
    var digits := PrintInt(n);
    seq(if |digits| < width then width - |digits| else 0, _ => '0') + digits
  }

  function DateText(d: Date): string { Pad(d.year, 4) + "-" + Pad(d.month, 2) + "-" + Pad(d.day, 2) }

  function ClockText(t: Clock): string { Pad(t.hour, 2) + ":" + Pad(t.minute, 2) + ":" + Pad(t.second, 2) }

  /** `value.replace("'", "''")`. */
  function Escape(value: string): string {
    if value == "" then ""
    else (if value[0] == '\'' then "''" else [value[0]]) + Escape(value[1..])
  }

  function Quote(value: string): string { "'" + Escape(value) + "'" }

  function PrintLiteral(floats: Floats, l: Literal): string {
    match l
    case IntegerLiteral(n) => PrintInt(n)
    case NumericLiteral(r) => floats.format(r)
    case DateLiteral(_, text) => "DATE '" + text + "'"
    case TimestampLiteral(d, t) =>
      "TIMESTAMP '" + (DateText(d) + " " + ClockText(t)) + "'"
    case TextLiteral(s) => Quote(s)
  }

  function SqlLiteral(floats: Floats, dataType: string, value: string): Result<string, LiteralError> {
    var l :- ReadValue(floats, dataType, value);
    Ok(PrintLiteral(floats, l))
  }

  // ---- Reading quoted literals back: section 5.3 of ISO/IEC 9075-2 ----

  /** The contents of a literal whose opening quote has been read, and how much was read up
      to and including the closing quote. A doubled quote stands for one quote. */
  function ReadBody(s: string): (r: Option<(string, nat)>)
    ensures r.Some? ==> 0 < r.value.1 <= |s|
    decreases |s|
  {
    if s == "" then None
    else if s[0] != '\'' then
      var rest := ReadBody(s[1..]);
      if rest.None? then None else Some(([s[0]] + rest.value.0, rest.value.1 + 1))
    else if |s| > 1 && s[1] == '\'' then
      var rest := ReadBody(s[2..]);
      if rest.None? then None else Some(("'" + rest.value.0, rest.value.1 + 2))
    else Some(("", 1))
  }

  function ReadQuoted(s: string): (r: Option<(string, nat)>)
    ensures r.Some? ==> 0 < r.value.1 <= |s|
  {
    if s == "" || s[0] != '\'' then None
    else
      var body := ReadBody(s[1..]);
      if body.None? then None else Some((body.value.0, body.value.1 + 1))
  }

  lemma {:induction false} EscapeReadsBack(value: string, rest: string)
    requires rest == "" || rest[0] != '\''
    ensures ReadBody(Escape(value) + "'" + rest) == Some((value, |Escape(value)| + 1))
  {
    var s := Escape(value) + "'" + rest;
    if value == "" {
      assert s == "'" + rest;
    } else {
      var head := if value[0] == '\'' then "''" else [value[0]];
      var tail := Escape(value[1..]) + "'" + rest;
      assert s == head + tail;
      assert s[|head|..] == tail;
      EscapeReadsBack(value[1..], rest);
      assert value == [value[0]] + value[1..];
    }
  }

  /** A printed text reads back as itself, and the reader stops exactly at its closing quote:
      no value can end its own literal early, whatever follows. */
  lemma QuoteReadsBack(value: string, rest: string)
    requires rest == "" || rest[0] != '\''
    ensures ReadQuoted(Quote(value) + rest) == Some((value, |Quote(value)|))
  {
    EscapeReadsBack(value, rest);
    assert (Quote(value) + rest)[1..] == Escape(value) + "'" + rest;
  }

  // ---- Integers ----

  lemma {:induction false} DigitGroupsOfDigits(s: string)
    requires s != "" && AllDigit(s)
    ensures DigitGroups(s) && DigitsOnly(s) == s
  {
    assert IsDigit(s[0]);
    if |s| > 1 {
      DigitGroupsOfDigits(s[1..]);
    }
    assert s == [s[0]] + s[1..];
  }

  /** A digit, or an underscore between two. */
  predicate DigitPlace(s: string, i: nat)
    requires i < |s|
  {
    IsDigit(s[i]) || (s[i] == '_' && 0 < i < |s| - 1 && IsDigit(s[i - 1]) && IsDigit(s[i + 1]))
  }

  lemma RestPlaces(s: string, n: nat)
    requires n < |s| && n <= 2 && IsDigit(s[0]) && (n == 2 ==> s[1] == '_') && IsDigit(s[n])
    ensures (forall i :: 0 <= i < |s| ==> DigitPlace(s, i)) <==> forall i :: 0 <= i < |s[n..]| ==> DigitPlace(s[n..], i)
  {
    hide IsDigit;
    var rest := s[n..];
    if forall i :: 0 <= i < |s| ==> DigitPlace(s, i) {
      forall i | 0 <= i < |rest| ensures DigitPlace(rest, i) { assert DigitPlace(s, i + n); }
    }
    if forall i :: 0 <= i < |rest| ==> DigitPlace(rest, i) {
      forall i | n <= i < |s| ensures DigitPlace(s, i) { assert DigitPlace(rest, i - n); }
    }
  }

  lemma {:induction false} GroupsByPlace(s: string)
    ensures DigitGroups(s) <==> s != "" && forall i :: 0 <= i < |s| ==> DigitPlace(s, i)
    decreases |s|
  {
    if |s| > 1 && IsDigit(s[0]) {
      GroupsByPlace(s[1..]);
      if IsDigit(s[1]) { RestPlaces(s, 1); } else { assert !DigitGroups(s[1..]) by { assert !DigitPlace(s[1..], 0); } }
      if |s| > 2 && s[1] == '_' {
        GroupsByPlace(s[2..]);
        if IsDigit(s[2]) { RestPlaces(s, 2); } else { assert !DigitPlace(s[2..], 0) && !DigitPlace(s, 1); }
      } else {
        assert DigitPlace(s, 1) <==> IsDigit(s[1]);
      }
    } else if s != "" {
      assert DigitPlace(s, 0) <==> IsDigit(s[0]);
    }
  }

  /** Exactly the texts are accepted that are, but for blanks around them, an optional sign and
      digits with single underscores between them; the underscores do not count. */
  lemma IntegerTexts(value: string)
    ensures var text := Strip(value);
      var digits := if text != "" && text[0] in {'-', '+'} then text[1..] else text;
      && (ParseInt(value).Some? <==> digits != "" && forall i :: 0 <= i < |digits| ==> DigitPlace(digits, i))
      && (ParseInt(value).Some? ==>
            ParseInt(value).value == (if text[0] == '-' then -1 else 1) * (Num(DigitsOnly(digits)) as int))
  {
    hide Strip, DigitGroups, Num, DigitPlace, DigitsOnly;
    var text := Strip(value);
    GroupsByPlace(if text != "" && text[0] in {'-', '+'} then text[1..] else text);
  }

  /** A printed integer reads back as itself. */
  lemma IntReadsBack(n: int)
    ensures ParseInt(PrintInt(n)) == Some(n)
  {
    hide Dec, Num, Strip, DigitGroups, DigitsOnly;
    var digits := Dec(if n < 0 then -n else n);
    assert IsDigit(digits[0]) && IsDigit(digits[|digits| - 1]);
    DigitGroupsOfDigits(digits);
    NumDec(if n < 0 then -n else n);
    StripTight(PrintInt(n));
    if n < 0 {
      assert PrintInt(n) == "-" + digits && PrintInt(n)[1..] == digits;
    }
  }

  // ---- Dates and timestamps ----

  lemma {:induction false} NumOfZeros(z: string, s: string)
    requires (forall i :: 0 <= i < |z| ==> z[i] == '0') && AllDigit(s)
    ensures AllDigit(z + s) && Num(z + s) == Num(s)
  {
    if s != "" {
      assert (z + s)[..|z + s| - 1] == z + s[..|s| - 1];
      NumOfZeros(z, s[..|s| - 1]);
    } else if z != "" {
      NumOfZeros(z[..|z| - 1], "");
      assert z[..|z| - 1] + "" == z[..|z| - 1] && z + "" == z;
    }
  }

  lemma DecLength(n: nat)
    requires n < 10_000
    ensures |Dec(n)| == if n < 10 then 1 else if n < 100 then 2 else if n < 1000 then 3 else 4
  {
    assert n >= 10 ==> Dec(n) == Dec(n / 10) + [Digit(n % 10)];
    assert n >= 100 ==> Dec(n / 10) == Dec(n / 10 / 10) + [Digit(n / 10 % 10)];
    assert n >= 1000 ==> Dec(n / 10 / 10) == Dec(n / 10 / 10 / 10) + [Digit(n / 10 / 10 % 10)];
  }

  /** A padded number has exactly its width and reads back as itself. */
  lemma PadReadsBack(n: nat, width: nat)
    requires (width == 2 && n < 100) || (width == 4 && n < 10_000)
    ensures |Pad(n, width)| == width && AllDigit(Pad(n, width)) && Num(Pad(n, width)) == n
  {
    hide Dec, Num;
    DecLength(n);
    NumDec(n);
    var zeros := seq(width - |Dec(n)|, _ => '0');
    NumOfZeros(zeros, Dec(n));
    assert Pad(n, width) == zeros + Dec(n);
  }

  predicate ValidClock(t: Clock) { 0 <= t.hour < 24 && 0 <= t.minute < 60 && 0 <= t.second < 60 }

  lemma DateReadsBack(d: Date)
    requires ValidDate(d) && 0 <= d.year < 10_000
    ensures |DateText(d)| == 10 && ParseDate(DateText(d)) == Some(d)
  {
    hide Pad, Num, LeapYear;
    PadReadsBack(d.year, 4);
    PadReadsBack(d.month, 2);
    PadReadsBack(d.day, 2);
    var text := DateText(d);
    assert text[..4] == Pad(d.year, 4) && text[5..7] == Pad(d.month, 2) && text[8..] == Pad(d.day, 2);
    assert IsDigit(Pad(d.month, 2)[1]) && text[6] == Pad(d.month, 2)[1];
    assert IsDigit(Pad(d.day, 2)[0]);
  }

  lemma ClockReadsBack(t: Clock)
    requires ValidClock(t)
    ensures |ClockText(t)| == 8 && ParseClock(ClockText(t)) == Some(t)
    ensures forall c :: c in ClockText(t) ==> IsDigit(c) || c == ':'
  {
    hide Pad, Num;
    PadReadsBack(t.hour, 2);
    PadReadsBack(t.minute, 2);
    PadReadsBack(t.second, 2);
    var text := ClockText(t);
    assert text[..2] == Pad(t.hour, 2) && text[3..5] == Pad(t.minute, 2) && text[6..] == Pad(t.second, 2);
    assert IsDigit(Pad(t.hour, 2)[1]) && text[1] == Pad(t.hour, 2)[1];
    assert IsDigit(Pad(t.minute, 2)[1]) && text[4] == Pad(t.minute, 2)[1];
  }

  /** The reader looks for the separator from the end: it skips the clock and finds the space. */
  lemma {:induction false} SplitsAtSpace(date: string, clock: string, n: nat)
    requires |date| < n <= |date| + 1 + |clock| && clock != ""
    requires ParseDate(date).Some? && ParseClock(clock).Some? && forall c :: c in clock ==> IsDigit(c) || c == ':'
    ensures ParseTimestampAt(date + " " + clock, n) == Some((ParseDate(date).value, ParseClock(clock).value))
  {
    hide ParseDate, ParseClock;
    var text, i := date + " " + clock, n - 1;
    if i == |date| {
      assert text[..i] == date && text[i + 1..] == clock;
      assert clock[0] in clock && LStrip(clock) == clock;
    } else {
      assert text[i] == clock[i - |date| - 1] && clock[i - |date| - 1] in clock;
      assert !IsSpace(text[i]) && LowerChar(text[i]) != 't';
      SplitsAtSpace(date, clock, i);
    }
  }

  lemma TimestampReadsBack(d: Date, t: Clock)
    requires ValidDate(d) && 0 <= d.year < 10_000 && ValidClock(t)
    ensures ParseTimestamp(DateText(d) + " " + ClockText(t)) == Some((d, t))
  {
    hide ParseDate, ParseClock, DateText, ClockText;
    DateReadsBack(d);
    ClockReadsBack(t);
    SplitsAtSpace(DateText(d), ClockText(t), |DateText(d)| + 1 + |ClockText(t)|);
  }

  predicate QuoteFree(s: string) { '\'' !in s }

  lemma {:induction false} EscapeOfQuoteFree(s: string)
    requires QuoteFree(s)
    ensures Escape(s) == s
  {
    if s != "" {
      assert s == [s[0]] + s[1..];
      EscapeOfQuoteFree(s[1..]);
    }
  }

  lemma DateIsQuoteFree(text: string)
    requires ParseDate(text).Some?
    ensures QuoteFree(text)
  {
    hide Num, LeapYear;
    var end := FieldEnd(text, 5, '-').value;
    var dayText := text[end + 1..];
    var day := if |dayText| == 2 && dayText[0] == ' ' then dayText[1..] else dayText;
    forall i | 0 <= i < |text| ensures text[i] != '\'' {
      if i < 4 {
        assert text[i] == text[..4][i];
      } else if 5 <= i < end {
        assert text[i] == text[5..end][i - 5];
      } else if i > end {
        assert text[i] == dayText[i - end - 1];
        assert |day| == |dayText| ==> IsDigit(day[i - end - 1]);
        assert |day| < |dayText| && i > end + 1 ==> IsDigit(day[i - end - 2]);
      }
    }
  }

  lemma ParsedBounds(text: string)
    ensures ParseDate(text).Some? ==> 0 <= ParseDate(text).value.year < 10_000
    ensures ParseClock(text).Some? ==> ValidClock(ParseClock(text).value)
  {
    hide LeapYear, Num;
    if ParseDate(text).Some? { FourDigits(text[..4]); }
  }

  lemma OneMoreDigit(s: string)
    requires s != "" && AllDigit(s)
    ensures Num(s) <= Num(s[..|s| - 1]) * 10 + 9
  {
  }

  lemma FourDigits(s: string)
    requires |s| == 4 && AllDigit(s)
    ensures Num(s) < 10_000
  {
    hide Num;
    OneMoreDigit(s);
    OneMoreDigit(s[..3]);
    OneMoreDigit(s[..2]);
    OneMoreDigit(s[..1]);
    assert s[..3][..2] == s[..2] && s[..2][..1] == s[..1] && s[..1][..0] == "";
    assert Num("") == 0 by { NumOfNothing(); }
  }

  lemma NumOfNothing()
    ensures Num("") == 0
  {
  }

  lemma {:induction false} TimestampBounds(text: string, n: nat)
    requires n <= |text|
    ensures var r := ParseTimestampAt(text, n);
      r.Some? ==> ValidDate(r.value.0) && 0 <= r.value.0.year < 10_000 && ValidClock(r.value.1)
  {
    hide ParseDate, ParseClock;
    if n == 0 {
      ParsedBounds(text);
    } else {
      ParsedBounds(text[..n - 1]);
      ParsedBounds(text[n..]);
      ParsedBounds(LStrip(text[n..]));
      TimestampBounds(text, n - 1);
    }
  }

  predicate Tight(text: string) { text != "" && !IsSpace(text[0]) && !IsSpace(text[|text| - 1]) }

  lemma PrintedIsTight(n: int, d: Date, t: Clock)
    requires ValidDate(d) && 0 <= d.year < 10_000 && ValidClock(t)
    ensures Tight(PrintInt(n)) && Tight(DateText(d)) && Tight(DateText(d) + " " + ClockText(t))
  {
    hide Dec, Num, LeapYear;
    var digits := Dec(if n < 0 then -n else n);
    assert IsDigit(digits[0]) && IsDigit(digits[|digits| - 1]);
    PadReadsBack(d.year, 4);
    PadReadsBack(d.day, 2);
    PadReadsBack(t.second, 2);
    var year, day, second := Pad(d.year, 4), Pad(d.day, 2), Pad(t.second, 2);
    assert IsDigit(year[0]) && IsDigit(day[1]) && IsDigit(second[1]);
    var date, stamp := DateText(d), DateText(d) + " " + ClockText(t);
    assert date[0] == year[0] && date[|date| - 1] == day[1];
    assert stamp[0] == year[0] && stamp[|stamp| - 1] == second[1];
  }

  /** A value written with blanks around it stands for what is written: an integer, a date or a
      moment, the number Python's float makes of it, or, for any other type, the text as given. */
  lemma WrittenValueIsRead(floats: Floats, before: string, after: string, n: int, d: Date, t: Clock, text: string)
    requires AllSpace(before) && AllSpace(after)
    requires ValidDate(d) && 0 <= d.year < 10_000 && ValidClock(t) && Tight(text)
    ensures ReadValue(floats, "integer", before + PrintInt(n) + after) == Ok(IntegerLiteral(n))
    ensures ReadValue(floats, "date", before + DateText(d) + after) == Ok(DateLiteral(d, DateText(d)))
    ensures ReadValue(floats, "timestamp", before + (DateText(d) + " " + ClockText(t)) + after)
      == Ok(TimestampLiteral(d, t))
    ensures var r := ReadValue(floats, "numeric", before + text + after);
      if floats.parse(text).Some? then r == Ok(NumericLiteral(floats.parse(text).value)) else r.Err?
    ensures forall dataType :: dataType !in {"integer", "numeric", "date", "timestamp"} ==>
      ReadValue(floats, dataType, before + text + after) == Ok(TextLiteral(before + text + after))
  {
    hide ParseDate, ParseTimestamp, ParseInt, PrintInt, DateText, ClockText, Strip;
    PrintedIsTight(n, d, t);
    StripPadded(before, PrintInt(n), after);
    StripPadded(before, DateText(d), after);
    StripPadded(before, DateText(d) + " " + ClockText(t), after);
    StripPadded(before, text, after);
    PaddedIntReads(before, n, after);
    DateReadsBack(d);
    TimestampReadsBack(d, t);
  }

  lemma PaddedIntReads(before: string, n: int, after: string)
    requires Strip(before + PrintInt(n) + after) == PrintInt(n) && Tight(PrintInt(n))
    ensures ParseInt(before + PrintInt(n) + after) == Some(n)
  {
    hide PrintInt, Strip;
    StripTight(PrintInt(n));
    IntReadsBack(n);
  }

  /** A field as it may be written: by its digits alone, or padded to two. */
  predicate WritesField(text: string, n: nat) { n < 100 && text in {Dec(n), Pad(n, 2)} }

  lemma WrittenField(text: string, n: nat)
    requires WritesField(text, n)
    ensures 1 <= |text| <= 2 && AllDigit(text) && Num(text) == n
    ensures forall lo, hi :: ParseField(text, lo, hi) == if lo <= n <= hi then Some(n) else None
  {
    hide Dec, Num, Pad;
    DecLength(n);
    NumDec(n);
    PadReadsBack(n, 2);
  }

  lemma FieldBefore(before: string, field: string, stop: char, after: string)
    requires 1 <= |field| <= 2 && AllDigit(field) && !IsDigit(stop)
    ensures FieldEnd(before + field + [stop] + after, |before|, stop) == Some(|before| + |field|)
  {
    var s := before + field + [stop] + after;
    assert s[|before| + |field|] == stop;
    if |field| == 2 { assert s[|before| + 1] == field[1] && IsDigit(field[1]); }
  }

  /** A date is read from four digits of the year and one or two of month and day, or a blank before
      a day of one digit, and only if the calendar has it. */
  lemma WrittenDateIsRead(y: string, m: string, d: string, month: nat, day: nat)
    requires |y| == 4 && AllDigit(y) && WritesField(m, month)
    requires WritesField(d, day) || (day < 10 && d == " " + Dec(day))
    ensures ParseDate(y + "-" + m + "-" + d)
      == var date := Date(Num(y), month, day); if ValidDate(date) then Some(date) else None
  {
    hide Num, Dec, Pad, WritesField, LeapYear, ParseField, FieldEnd;
    WrittenField(m, month);
    if day < 10 && d == " " + Dec(day) { OneDigit(day); }
    var digits := if WritesField(d, day) then d else Dec(day);
    WrittenField(digits, day);
    var text := y + "-" + m + "-" + d;
    assert text == (y + "-") + m + ['-'] + d;
    FieldBefore(y + "-", m, '-', d);
    var end := 5 + |m|;
    DateParts(y, m, d);
    assert (if |d| == 2 && d[0] == ' ' then d[1..] else d) == digits by {
      if WritesField(d, day) { assert IsDigit(d[0]); } else { assert d[1..] == Dec(day); }
    }
  }

  lemma DateParts(y: string, m: string, d: string)
    requires |y| == 4
    ensures var text, end := y + "-" + m + "-" + d, 5 + |m|;
      text[..4] == y && text[4] == '-' && text[5..end] == m && text[end + 1..] == d
  {
  }

  lemma OneDigit(n: nat)
    requires n < 10
    ensures |Dec(n)| == 1 && WritesField(Dec(n), n)
  {
  }

  // ---- A filter value printed and read back ----

  /** The number at the front of a text, and how long it is. */
  function ReadInteger(s: string): Option<(int, nat)> {
    var sign := if s != "" && s[0] == '-' then 1 else 0;
    var n := DigitRun(s[sign..]);
    if n == 0 then None
    else
      var digits := s[sign..][..n];
      Some((if sign == 1 then -(Num(digits) as int) else Num(digits), sign + n))
  }

  lemma DigitsRead(n: nat, rest: string)
    requires rest == "" || !IsDigit(rest[0])
    ensures var s, d := Dec(n) + rest, |Dec(n)|;
      DigitRun(s) == d && s[..d] == Dec(n) && Num(Dec(n)) == n && IsDigit(s[0])
  {
    hide Dec, Num, DigitRun;
    NumDec(n);
    DigitRunExact(Dec(n) + rest, |Dec(n)|);
  }

  lemma PrintedIntegerReads(n: int, rest: string)
    requires rest == "" || !IsDigit(rest[0])
    ensures ReadInteger(PrintInt(n) + rest) == Some((n, |PrintInt(n)|))
  {
    hide Dec, Num, DigitRun;
    var m: nat := if n < 0 then -n else n;
    DigitsRead(m, rest);
    if n < 0 {
      assert (PrintInt(n) + rest)[1..] == Dec(m) + rest;
    } else {
      assert (PrintInt(n) + rest)[0..] == Dec(m) + rest;
    }
  }

  /** What PostgreSQL reads off the front of a text as a literal of the data type, and how much
      of it: a number, a keyword and a quoted text for dates and timestamps, or a quoted text. */
  function ReadLiteral(dataType: string, s: string): Option<(Literal, nat)> {
    var keyword := Keyword(dataType);
    if dataType == "integer" then
      var n := ReadInteger(s);
      if n.None? then None else Some((IntegerLiteral(n.value.0), n.value.1))
    else if dataType == "numeric" || !(keyword <= s) then None
    else
      match ReadQuoted(s[|keyword|..])
      case None => None
      case Some((text, n)) =>
        if dataType == "date" then
          var d := ParseDate(text);
          if d.None? then None else Some((DateLiteral(d.value, text), |keyword| + n))
        else if dataType == "timestamp" then
          var t := ParseTimestamp(text);
          if t.None? then None else Some((TimestampLiteral(t.value.0, t.value.1), |keyword| + n))
        else Some((TextLiteral(text), n))
  }

  function Keyword(dataType: string): string {
    if dataType == "date" then "DATE " else if dataType == "timestamp" then "TIMESTAMP " else ""
  }

  /** The quoted text of a printed literal. */
  function QuotedText(l: Literal): string
    requires !l.IntegerLiteral? && !l.NumericLiteral?
  {
    match l
    case DateLiteral(_, text) => text
    case TimestampLiteral(d, t) => DateText(d) + " " + ClockText(t)
    case TextLiteral(s) => s
  }

  lemma AcceptedText(floats: Floats, dataType: string, value: string)
    requires dataType !in {"integer", "numeric"} && ReadValue(floats, dataType, value).Ok?
    ensures var l := ReadValue(floats, dataType, value).value;
      && !l.IntegerLiteral? && !l.NumericLiteral?
      && SqlLiteral(floats, dataType, value) == Ok(Keyword(dataType) + Quote(QuotedText(l)))
      && (dataType == "date" ==> l.DateLiteral? && ParseDate(l.text) == Some(l.date))
      && (dataType == "timestamp" ==> l.TimestampLiteral? && ParseTimestamp(QuotedText(l)) == Some((l.date, l.time)))
      && (dataType !in {"date", "timestamp"} ==> l == TextLiteral(value))
  {
    hide ParseDate, ParseClock, ParseTimestampAt, Strip, Escape, DateText, ClockText;
    var l := ReadValue(floats, dataType, value).value;
    if dataType == "date" {
      DateIsQuoteFree(l.text);
      EscapeOfQuoteFree(l.text);
      assert "DATE '" + l.text + "'" == "DATE " + ("'" + l.text + "'");
    } else if dataType == "timestamp" {
      TimestampBounds(Strip(value), |Strip(value)|);
      TimestampReadsBack(l.date, l.time);
      StampIsQuoteFree(l.date, l.time);
      EscapeOfQuoteFree(QuotedText(l));
      assert "TIMESTAMP '" + QuotedText(l) + "'" == "TIMESTAMP " + ("'" + QuotedText(l) + "'");
    } else {
      assert Quote(value) == "" + Quote(value);
    }
  }

  /** A date, timestamp or text value that is accepted prints as a literal that reads back as
      the very value, and the reader stops exactly at its closing quote. */
  lemma SqlLiteralReadsBack(floats: Floats, dataType: string, value: string, rest: string)
    requires dataType !in {"integer", "numeric"} && ReadValue(floats, dataType, value).Ok?
    requires rest == "" || rest[0] != '\''
    ensures var printed := SqlLiteral(floats, dataType, value).value;
      ReadLiteral(dataType, printed + rest) == Some((ReadValue(floats, dataType, value).value, |printed|))
  {
    hide ParseDate, ParseTimestamp, ReadValue, SqlLiteral, ReadQuoted, Quote, QuotedText;
    AcceptedText(floats, dataType, value);
    var keyword, text := Keyword(dataType), QuotedText(ReadValue(floats, dataType, value).value);
    var s := keyword + Quote(text) + rest;
    assert s[|keyword|..] == Quote(text) + rest;
    assert keyword <= s;
    QuoteReadsBack(text, rest);
    TextsOfLiterals(ReadValue(floats, dataType, value).value);
  }

  lemma TextsOfLiterals(l: Literal)
    ensures l.DateLiteral? ==> QuotedText(l) == l.text
    ensures l.TextLiteral? ==> QuotedText(l) == l.s
  {
  }

  lemma StampIsQuoteFree(d: Date, t: Clock)
    requires ValidDate(d) && 0 <= d.year < 10_000 && ValidClock(t)
    ensures QuoteFree(DateText(d) + " " + ClockText(t))
  {
    hide ParseDate, ParseClock;
    DateReadsBack(d);
    DateIsQuoteFree(DateText(d));
    ClockReadsBack(t);
  }

  /** What may stand after a literal without being read as part of it. */
  predicate Ends(rest: string) { rest == "" || (rest[0] != '\'' && !IsDigit(rest[0])) }

  /** Whatever the data type, except for numbers that go through floating point: an accepted
      value prints as a literal that reads back as the value, and reading stops at its end. */
  lemma LiteralReadsBack(floats: Floats, dataType: string, value: string, rest: string)
    requires dataType != "numeric" && ReadValue(floats, dataType, value).Ok? && Ends(rest)
    ensures var printed := SqlLiteral(floats, dataType, value).value;
      && printed != "" && printed[0] != ','
      && ReadLiteral(dataType, printed + rest) == Some((ReadValue(floats, dataType, value).value, |printed|))
  {
    hide ParseInt, ParseDate, ParseTimestamp, ReadInteger, ReadQuoted, Escape, Dec;
    if dataType == "integer" {
      PrintedIntegerReads(ParseInt(value).value, rest);
    } else {
      SqlLiteralReadsBack(floats, dataType, value, rest);
      AcceptedText(floats, dataType, value);
    }
  }

  // ---- IN lists ----

  /** The literals of a list, separated by commas. */
  function InList(floats: Floats, dataType: string, values: seq<string>): string
    requires forall v :: v in values ==> ReadValue(floats, dataType, v).Ok?
  {
    if values == [] then ""
    else if |values| == 1 then SqlLiteral(floats, dataType, values[0]).value
    else SqlLiteral(floats, dataType, values[0]).value + ", " + InList(floats, dataType, values[1..])
  }

  function ListLiterals(floats: Floats, dataType: string, values: seq<string>): (r: seq<Literal>)
    requires forall v :: v in values ==> ReadValue(floats, dataType, v).Ok?
  {
    if values == [] then []
    else [ReadValue(floats, dataType, values[0]).value] + ListLiterals(floats, dataType, values[1..])
  }

  /** The literals at the front of a text, and what follows the last one. */
  function ReadLiterals(dataType: string, s: string): Option<(seq<Literal>, string)>
    decreases |s|
  {
    var first := ReadLiteral(dataType, s);
    if first.None? || first.value.1 == 0 || first.value.1 > |s| then None
    else
      var rest := s[first.value.1..];
      if ", " <= rest then
        var more := ReadLiterals(dataType, rest[2..]);
        if more.None? then None else Some(([first.value.0] + more.value.0, more.value.1))
      else Some(([first.value.0], rest))
  }

  lemma ReadLiteralsAt(floats: Floats, dataType: string, value: string, rest: string)
    requires dataType != "numeric" && ReadValue(floats, dataType, value).Ok? && Ends(rest)
    ensures var l := ReadValue(floats, dataType, value).value;
      ReadLiterals(dataType, SqlLiteral(floats, dataType, value).value + rest) ==
        if ", " <= rest then
          var more := ReadLiterals(dataType, rest[2..]);
          if more.None? then None else Some(([l] + more.value.0, more.value.1))
        else Some(([l], rest))
  {
    hide ReadLiteral, ReadValue, PrintLiteral;
    LiteralReadsBack(floats, dataType, value, rest);
    var printed := SqlLiteral(floats, dataType, value).value;
    assert (printed + rest)[|printed|..] == rest;
  }

  /** An IN list of n values of any such data type reads back as the same n literals in the
      same order, and reading stops at the end of the list. */
  lemma {:induction false} ListReadsBack(floats: Floats, dataType: string, values: seq<string>, rest: string)
    requires values != [] && dataType != "numeric"
    requires forall v :: v in values ==> ReadValue(floats, dataType, v).Ok?
    requires Ends(rest) && (rest != "" ==> rest[0] != ',')
    ensures ReadLiterals(dataType, InList(floats, dataType, values) + rest)
         == Some((ListLiterals(floats, dataType, values), rest))
  {
    hide ReadLiterals, ReadValue, PrintLiteral, ReadLiteral;
    if |values| == 1 {
      ReadLiteralsAt(floats, dataType, values[0], rest);
      var l := ReadValue(floats, dataType, values[0]).value;
      assert ListLiterals(floats, dataType, values) == [l] + [] == [l];
      assert InList(floats, dataType, values) == SqlLiteral(floats, dataType, values[0]).value;
    } else {
      assert forall v :: v in values[1..] ==> v in values;
      var more := InList(floats, dataType, values[1..]) + rest;
      assert InList(floats, dataType, values) + rest == SqlLiteral(floats, dataType, values[0]).value + (", " + more);
      ReadLiteralsAt(floats, dataType, values[0], ", " + more);
      assert (", " + more)[2..] == more && ", " <= ", " + more;
      ListReadsBack(floats, dataType, values[1..], rest);
    }
  }
}
