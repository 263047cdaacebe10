/** The proleptic Gregorian calendar the scheduler's datetimes live in.

    A date is its year, month and day, the three fields `datetime.replace` rewrites;
    `Ordinal` numbers the days (1 January of year 1 is day 1, a Monday). */
module Calendar {
  datatype Date = Date(year: int, month: int, day: int)

  predicate LeapYear(year: int) {
    year % 4 == 0 && (year % 100 != 0 || year % 400 == 0)
  }

  function DaysInYear(year: int): int {
    if LeapYear(year) then 366 else 365
  }

  function DaysInMonth(year: int, month: int): int {
    if month == 2 then (if LeapYear(year) then 29 else 28)
    else if month == 4 || month == 6 || month == 9 || month == 11 then 30
    else 31
  }

  predicate ValidDate(d: Date) {
    d.year >= 1 && 1 <= d.month <= 12 && 1 <= d.day <= DaysInMonth(d.year, d.month)
  }

  function DaysBeforeYear(year: int): int
    decreases year
  {
    if year <= 1 then 0 else DaysBeforeYear(year - 1) + DaysInYear(year - 1)
  }

  function DaysBeforeMonth(year: int, month: int): int
    requires 1 <= month <= 13
    decreases month
  {
    if month == 1 then 0 else DaysBeforeMonth(year, month - 1) + DaysInMonth(year, month - 1)
  }

  function DayOfYear(d: Date): int
    requires ValidDate(d)
  {
    DaysBeforeMonth(d.year, d.month) + d.day
  }

  function Ordinal(d: Date): int
    requires ValidDate(d)
  {
    DaysBeforeYear(d.year) + DayOfYear(d)
  }

  /** Chronological order read off the fields. */
  predicate Before(a: Date, b: Date) {
    a.year < b.year || (a.year == b.year && (a.month < b.month || (a.month == b.month && a.day < b.day)))
  }

  /** ISO weekday: Monday is 1, Sunday is 7. */
  function IsoWeekday(d: Date): (w: int)
    requires ValidDate(d)
    ensures 1 <= w <= 7
  {
    (Ordinal(d) - 1) % 7 + 1
  }

  // ---- The ordinal in closed form ----

  lemma FourthYear(year: int)
    ensures year / 4 - (year - 1) / 4 == if year % 4 == 0 then 1 else 0
  {
  }

  lemma HundredthYear(year: int)
    ensures year / 100 - (year - 1) / 100 == if year % 100 == 0 then 1 else 0
  {
  }

  lemma FourHundredthYear(year: int)
    ensures year / 400 - (year - 1) / 400 == if year % 400 == 0 then 1 else 0
    ensures year % 400 == 0 ==> year % 100 == 0
    ensures year % 100 == 0 ==> year % 4 == 0
  {
  }

  lemma {:induction false} YearsInClosedForm(year: int)
    requires year >= 1
    ensures DaysBeforeYear(year) == 365 * (year - 1) + (year - 1) / 4 - (year - 1) / 100 + (year - 1) / 400
    decreases year
  {
    if year > 1 {
      YearsInClosedForm(year - 1);
      FourthYear(year - 1);
      HundredthYear(year - 1);
      FourHundredthYear(year - 1);
    }
  }

  /** The quotient counts February as thirty days. */
  lemma MonthQuotient(month: int)
    requires 1 <= month <= 11
    ensures (367 * (month + 1) - 362) / 12 - (367 * month - 362) / 12
      == if month == 2 then 30 else if month in {4, 6, 9, 11} then 30 else 31
  {
    assert month in {1, 2, 3, 4, 5, 6, 7, 8, 9, 10, 11};
  }

  lemma {:induction false} MonthsInClosedForm(year: int, month: int)
    requires 1 <= month <= 12
    ensures DaysBeforeMonth(year, month)
      == (367 * month - 362) / 12 + (if month <= 2 then 0 else if LeapYear(year) then -1 else -2)
    decreases month
  {
    hide LeapYear;
    if month > 1 {
      MonthsInClosedForm(year, month - 1);
      MonthQuotient(month - 1);
    }
  }

  /** Every date's day number, without counting up to it: a leap day in four years, none in a
      century, one again in four centuries; 1 January of year 1 is day 1. */
  lemma OrdinalInClosedForm(d: Date)
    requires ValidDate(d)
    ensures Ordinal(d)
      == 365 * (d.year - 1) + (d.year - 1) / 4 - (d.year - 1) / 100 + (d.year - 1) / 400
        + (367 * d.month - 362) / 12
        + (if d.month <= 2 then 0 else if d.year % 4 == 0 && (d.year % 100 != 0 || d.year % 400 == 0) then -1 else -2)
        + d.day
  {
    YearsInClosedForm(d.year);
    MonthsInClosedForm(d.year, d.month);
  }

  lemma LeapDaysInCycles(cycles: nat)
    ensures (2023 + 400 * cycles) / 4 == 505 + 100 * cycles
    ensures (2023 + 400 * cycles) / 100 == 20 + 4 * cycles
    ensures (2023 + 400 * cycles) / 400 == 5 + cycles
  {
  }

  lemma AnchorOrdinal(anchor: Date, cycles: nat)
    requires anchor == Date(2024 + 400 * cycles, 1, 1)
    ensures Ordinal(anchor) == 7 * (105555 + 20871 * cycles) + 1
  {
    hide DaysBeforeYear, DaysBeforeMonth;
    OrdinalInClosedForm(anchor);
    LeapDaysInCycles(cycles);
  }

  /** 1 January 2024 was a Monday, and so it is whenever 400 years have passed; the other
      weekdays go on from there in both directions. */
  lemma WeekdayFromAnchor(d: Date, cycles: nat)
    requires ValidDate(d)
    ensures var anchor := Date(2024 + 400 * cycles, 1, 1);
      IsoWeekday(anchor) == 1 && IsoWeekday(d) == (Ordinal(d) - Ordinal(anchor)) % 7 + 1
  {
    hide Ordinal, LeapYear;
    AnchorOrdinal(Date(2024 + 400 * cycles, 1, 1), cycles);
  }

  // ---- Years and months tile the ordinals ----

  lemma {:induction false} YearsAscend(a: int, b: int)
    requires 1 <= a <= b
    ensures DaysBeforeYear(a) <= DaysBeforeYear(b)
    decreases b - a
  {
    if a < b {
      YearsAscend(a + 1, b);
    }
  }

  lemma MonthsTileYear(year: int)
    ensures DaysBeforeMonth(year, 13) == DaysInYear(year)
  {
    assert DaysBeforeMonth(year, 4) == DaysBeforeMonth(year, 3) + 31;
    assert DaysBeforeMonth(year, 7) == DaysBeforeMonth(year, 4) + 91;
    assert DaysBeforeMonth(year, 10) == DaysBeforeMonth(year, 7) + 92;
  }

  lemma {:induction false} MonthsAscend(year: int, a: int, b: int)
    requires 1 <= a <= b <= 13
    ensures DaysBeforeMonth(year, a) <= DaysBeforeMonth(year, b)
    decreases b - a
  {
    if a < b {
      MonthsAscend(year, a + 1, b);
    }
  }

  lemma OrdinalWithinYear(d: Date)
    requires ValidDate(d)
    ensures DaysBeforeYear(d.year) < Ordinal(d) <= DaysBeforeYear(d.year + 1)
  {
    MonthsTileYear(d.year);
    MonthsAscend(d.year, 1, d.month);
    MonthsAscend(d.year, d.month + 1, 13);
  }

  /** The ordinal preserves chronological order, hence separates dates. */
  lemma OrdinalOrder(a: Date, b: Date)
    requires ValidDate(a) && ValidDate(b)
    ensures Before(a, b) <==> Ordinal(a) < Ordinal(b)
    ensures a == b <==> Ordinal(a) == Ordinal(b)
  {
    if Before(a, b) {
      OrdinalAscends(a, b);
    } else if Before(b, a) {
      OrdinalAscends(b, a);
    }
  }

  lemma OrdinalAscends(a: Date, b: Date)
    requires ValidDate(a) && ValidDate(b) && Before(a, b)
    ensures Ordinal(a) < Ordinal(b)
  {
    if a.year < b.year {
      OrdinalWithinYear(a);
      OrdinalWithinYear(b);
      YearsAscend(a.year + 1, b.year);
    } else {
      DayOfYearAscends(a, b);
    }
  }

  lemma DayOfYearAscends(a: Date, b: Date)
    requires ValidDate(a) && ValidDate(b) && a.year == b.year && Before(a, b)
    ensures DayOfYear(a) < DayOfYear(b)
  {
    if a.month < b.month {
      MonthsAscend(a.year, a.month + 1, b.month);
    }
  }

  // ---- Moving by whole days ----

  function NextDay(d: Date): Date {
    if d.day < DaysInMonth(d.year, d.month) then d.(day := d.day + 1)
    else if d.month < 12 then Date(d.year, d.month + 1, 1)
    else Date(d.year + 1, 1, 1)
  }

  lemma NextDayIsNext(d: Date)
    requires ValidDate(d)
    ensures ValidDate(NextDay(d)) && Ordinal(NextDay(d)) == Ordinal(d) + 1
  {
    hide LeapYear;
    MonthsTileYear(d.year);
  }

  /** `date + timedelta(days=n)`. */
  function AddDays(d: Date, n: nat): (r: Date)
    requires ValidDate(d)
    ensures ValidDate(r) && Ordinal(r) == Ordinal(d) + n
    decreases n
  {
    NextDayIsNext(d);
    if n == 0 then d else AddDays(NextDay(d), n - 1)
  }

  function NextMonth(d: Date): (r: Date) {
    if d.month == 12 then Date(d.year + 1, 1, d.day) else Date(d.year, d.month + 1, d.day)
  }

  /** Thirty-two days after the first of a month is always in the following month,
      on its 2nd to 5th day, for every month length and across December. */
  lemma FirstPlus32Days(d: Date)
    requires ValidDate(d) && d.day == 1
    ensures var r := AddDays(d, 32);
      r.year == NextMonth(d).year && r.month == NextMonth(d).month && 2 <= r.day <= 5
  {
    hide LeapYear;
    var first := NextMonth(d);
    var length := DaysInMonth(d.year, d.month);
    MonthsTileYear(d.year);
    var landing := first.(day := 33 - length);
    assert Ordinal(landing) == Ordinal(d) + 32;
    OrdinalOrder(AddDays(d, 32), landing);
  }

  // ---- Instants ----

  const MICROS_PER_MINUTE: int := 60_000_000
  const MICROS_PER_DAY: int := 86_400_000_000

  /** A naive datetime: a date and the microseconds since its midnight. */
  datatype Instant = Instant(date: Date, micros: int)

  predicate ValidInstant(t: Instant) {
    ValidDate(t.date) && 0 <= t.micros < MICROS_PER_DAY
  }

  /** Microseconds on one time line. */
  function Timeline(t: Instant): int
    requires ValidInstant(t)
  {
    Ordinal(t.date) * MICROS_PER_DAY + t.micros
  }

  predicate Earlier(a: Instant, b: Instant)
    requires ValidInstant(a) && ValidInstant(b)
  {
    Timeline(a) < Timeline(b)
  }

  lemma TimelineOrder(a: Instant, b: Instant)
    requires ValidInstant(a) && ValidInstant(b)
    ensures Earlier(a, b) <==>
      Ordinal(a.date) < Ordinal(b.date) || (Ordinal(a.date) == Ordinal(b.date) && a.micros < b.micros)
    ensures Timeline(a) == Timeline(b) <==> a == b
  {
    OrdinalOrder(a.date, b.date);
  }
}
