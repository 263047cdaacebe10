/** When a report schedule is next due. */
module NextRun {
  import opened Calendar
  import opened Wrappers

  datatype TimeOfDay = TimeOfDay(hour: int, minute: int)

  /** The four columns of a schedule that decide when it runs. Any frequency other than
      "daily" and "weekly" is treated as monthly. */
  datatype Rule = Rule(
    frequency: string, runAt: Option<TimeOfDay>, dayOfWeek: Option<int>, dayOfMonth: Option<int>)

  /** `replace(day=...)` raises when the day is not positive. */
  datatype RuleError = DayOutOfRange(day: int)

  predicate ValidRule(rule: Rule) {
    rule.runAt.Some? ==> 0 <= rule.runAt.value.hour < 24 && 0 <= rule.runAt.value.minute < 60
  }

  /** Nine in the morning unless the schedule names a time. */
  function TargetMicros(rule: Rule): (m: int)
    requires ValidRule(rule)
    ensures 0 <= m < MICROS_PER_DAY
  {
    var time := rule.runAt.GetOr(TimeOfDay(9, 0));
    (time.hour * 60 + time.minute) * MICROS_PER_MINUTE
  }

  /** Python's `value or default` on an optional number: 0 also means the default. */
  function Or(value: Option<int>, default: int): int {
    if value == None || value == Some(0) then default else value.value
  }

  function TargetDay(rule: Rule): int {
    var day := Or(rule.dayOfMonth, 1);
    if day < 28 then day else 28
  }

  function DaysAhead(rule: Rule, today: Date): (n: nat)
    requires ValidDate(today)
  {
    (Or(rule.dayOfWeek, 1) - IsoWeekday(today)) % 7
  }

  /** The first of the month plus 32 days, moved to the target day. */
  function SameDayNextMonth(d: Date): Date
    requires ValidDate(d.(day := 1))
  {
    AddDays(d.(day := 1), 32).(day := d.day)
  }

  /** Only a monthly rule with a negative day cannot be computed. */
  predicate Computable(rule: Rule) {
    rule.frequency in {"daily", "weekly"} || Or(rule.dayOfMonth, 1) >= 0
  }

  function NextRunAt(rule: Rule, now: Instant): (r: Result<Instant, RuleError>)
    requires ValidRule(rule) && ValidInstant(now)
  {
    var candidate := now.(micros := TargetMicros(rule));
    if rule.frequency == "daily" then
      Ok(if Earlier(now, candidate) then candidate else candidate.(date := AddDays(candidate.date, 1)))
    else if rule.frequency == "weekly" then
      var candidate := candidate.(date := AddDays(candidate.date, DaysAhead(rule, now.date)));
      Ok(if Earlier(now, candidate) then candidate else candidate.(date := AddDays(candidate.date, 7)))
    else if TargetDay(rule) < 1 then
      Err(DayOutOfRange(TargetDay(rule)))
    else
      var candidate := candidate.(date := candidate.date.(day := TargetDay(rule)));
      Ok(if Earlier(now, candidate) then candidate else candidate.(date := SameDayNextMonth(candidate.date)))
  }

  // ---- What a schedule means, independently of how the next run is computed ----

  predicate OnWeekday(d: Date, target: int)
    requires ValidDate(d)
  {
    (IsoWeekday(d) - target) % 7 == 0
  }

  /** Daily; on the weekday named, else on Mondays; on the day of the month named, else on the
      first, a day past the 28th standing for the 28th. */
  predicate OccursOn(rule: Rule, d: Date)
    requires ValidDate(d)
  {
    if rule.frequency == "daily" then true
    else if rule.frequency == "weekly" then
      (rule.dayOfWeek in {None, Some(0)} && IsoWeekday(d) == 1)
      || (rule.dayOfWeek.Some? && rule.dayOfWeek.value != 0 && OnWeekday(d, rule.dayOfWeek.value))
    else
      (rule.dayOfMonth in {None, Some(0)} && d.day == 1)
      || (rule.dayOfMonth.Some? && rule.dayOfMonth.value != 0
          && (d.day == rule.dayOfMonth.value <= 28 || (d.day == 28 && rule.dayOfMonth.value > 28)))
  }

  /** On the minute, at the time named, else at nine in the morning. */
  predicate AtTime(rule: Rule, micros: int) {
    && micros % MICROS_PER_MINUTE == 0
    && match rule.runAt
       case None => micros == 9 * 3_600_000_000
       case Some(time) => micros / 3_600_000_000 == time.hour && micros % 3_600_000_000 == time.minute * 60_000_000
  }

  predicate Occurs(rule: Rule, t: Instant) {
    ValidInstant(t) && AtTime(rule, t.micros) && OccursOn(rule, t.date)
  }

  lemma TargetTime(rule: Rule, micros: int)
    requires ValidRule(rule)
    ensures AtTime(rule, micros) <==> micros == TargetMicros(rule)
  {
  }

  lemma TargetDate(rule: Rule, d: Date)
    requires ValidDate(d)
    ensures OccursOn(rule, d) <==>
      || rule.frequency == "daily"
      || (rule.frequency == "weekly" && OnWeekday(d, Or(rule.dayOfWeek, 1)))
      || (rule.frequency !in {"daily", "weekly"} && d.day == TargetDay(rule))
  {
    hide IsoWeekday;
  }

  /** `next` is the first instant of the schedule strictly after `now`. */
  ghost predicate FirstAfter(rule: Rule, now: Instant, next: Instant)
    requires ValidRule(rule) && ValidInstant(now)
  {
    && Occurs(rule, next)
    && Earlier(now, next)
    && forall t :: Occurs(rule, t) && Earlier(now, t) ==> Timeline(next) <= Timeline(t)
  }

  lemma FirstAfterIsUnique(rule: Rule, now: Instant, a: Instant, b: Instant)
    requires ValidRule(rule) && ValidInstant(now)
    requires FirstAfter(rule, now, a) && FirstAfter(rule, now, b)
    ensures a == b
  {
    TimelineOrder(a, b);
  }

  /** The next run is the first occurrence after now: no occurrence is skipped and none is
      repeated, over leap years, every month length and the turn of the year. It fails
      exactly when a monthly schedule names a negative day. */
  lemma NextRunAtIsFirstAfter(rule: Rule, now: Instant)
    requires ValidRule(rule) && ValidInstant(now)
    ensures var r := NextRunAt(rule, now);
      && (r.Ok? ==> FirstAfter(rule, now, r.value))
      && (r.Ok? <==> Computable(rule))
  {
    var r := NextRunAt(rule, now);
    if r.Ok? {
      if rule.frequency == "daily" {
        DailyIsFirst(rule, now);
      } else if rule.frequency == "weekly" {
        WeeklyIsFirst(rule, now);
      } else {
        MonthlyIsFirst(rule, now);
      }
    }
  }

  lemma DailyIsFirst(rule: Rule, now: Instant)
    requires ValidRule(rule) && ValidInstant(now) && rule.frequency == "daily"
    ensures FirstAfter(rule, now, NextRunAt(rule, now).value)
  {
    hide Ordinal, IsoWeekday, LeapYear;
    var next := NextRunAt(rule, now).value;
    TargetTime(rule, next.micros);
    TargetDate(rule, next.date);
    forall t | Occurs(rule, t) && Earlier(now, t)
      ensures Timeline(next) <= Timeline(t)
    {
      TargetTime(rule, t.micros);
      TargetDate(rule, t.date);
    }
  }

  lemma AddWeeks(x: int, weeks: int)
    ensures (x + 7 * weeks) % 7 == x % 7
  {
  }

  predicate Congruent(ordinal: int, target: int) {
    (ordinal - target) % 7 == 0
  }

  /** A day is on the target weekday exactly when its ordinal is the target modulo seven. */
  lemma WeekdayResidue(d: Date, target: int)
    requires ValidDate(d)
    ensures OnWeekday(d, target) <==> Congruent(Ordinal(d), target)
  {
  }

  lemma DaysAheadResidue(rule: Rule, today: Date)
    requires ValidDate(today)
    ensures DaysAhead(rule, today) == (Or(rule.dayOfWeek, 1) - Ordinal(today)) % 7
  {
  }

  /** Among the days from `today` on with the target's residue, `today + days` is the first,
      and the next one is a week later. */
  lemma FirstOfResidue(today: int, days: int, target: int, other: int)
    requires days == (target - today) % 7
    ensures Congruent(today + days, target) && Congruent(today + days + 7, target)
    ensures Congruent(other, target) && other >= today ==> other >= today + days
    ensures Congruent(other, target) && other > today + days ==> other >= today + days + 7
  {
    AddWeeks(today + days - target, 1);
  }

  lemma WeeklyDays(rule: Rule, today: Date, other: Date)
    requires ValidDate(today) && ValidDate(other)
    ensures var n, target := DaysAhead(rule, today), Or(rule.dayOfWeek, 1);
      && OnWeekday(AddDays(today, n), target) && OnWeekday(AddDays(AddDays(today, n), 7), target)
      && (OnWeekday(other, target) && Ordinal(other) >= Ordinal(today) ==>
            Ordinal(other) >= Ordinal(today) + n
            && (Ordinal(other) > Ordinal(today) + n ==> Ordinal(other) >= Ordinal(today) + n + 7))
  {
    hide Ordinal, OnWeekday, DaysAhead, Congruent, AddDays;
    var n, target := DaysAhead(rule, today), Or(rule.dayOfWeek, 1);
    DaysAheadResidue(rule, today);
    FirstOfResidue(Ordinal(today), n, target, Ordinal(other));
    WeekdayResidue(other, target);
    WeekdayResidue(AddDays(today, n), target);
    WeekdayResidue(AddDays(AddDays(today, n), 7), target);
  }

  lemma WeeklyIsFirst(rule: Rule, now: Instant)
    requires ValidRule(rule) && ValidInstant(now) && rule.frequency == "weekly"
    ensures FirstAfter(rule, now, NextRunAt(rule, now).value)
  {
    hide Ordinal, OnWeekday, DaysAhead, LeapYear, AddDays;
    var next := NextRunAt(rule, now).value;
    TargetTime(rule, next.micros);
    TargetDate(rule, next.date);
    WeeklyDays(rule, now.date, now.date);
    forall t | Occurs(rule, t) && Earlier(now, t)
      ensures Timeline(next) <= Timeline(t)
    {
      TargetTime(rule, t.micros);
      TargetDate(rule, t.date);
      WeeklyDays(rule, now.date, t.date);
    }
  }

  lemma MonthlyIsFirst(rule: Rule, now: Instant)
    requires ValidRule(rule) && ValidInstant(now) && rule.frequency !in {"daily", "weekly"}
    requires TargetDay(rule) >= 1
    ensures FirstAfter(rule, now, NextRunAt(rule, now).value)
  {
    hide Ordinal, IsoWeekday, LeapYear;
    var next := NextRunAt(rule, now).value;
    TargetTime(rule, next.micros);
    TargetDate(rule, next.date);
    var candidate := Instant(now.date.(day := TargetDay(rule)), TargetMicros(rule));
    FirstPlus32Days(now.date.(day := 1));
    OrdinalOrder(candidate.date, next.date);
    forall t | Occurs(rule, t) && Earlier(now, t)
      ensures Timeline(next) <= Timeline(t)
    {
      TargetTime(rule, t.micros);
      TargetDate(rule, t.date);
      OrdinalOrder(now.date, t.date);
      OrdinalOrder(candidate.date, t.date);
      OrdinalOrder(next.date, t.date);
      TimelineOrder(now, t);
    }
    OrdinalOrder(now.date, next.date);
  }
}
