/** The baseline period of a headline figure, and how its rows relate to those of the period
    asked about. */
module Periods {
  import opened Wrappers
  import opened Literals
  import opened Sql
  import opened Planner
  import opened CompilerCorrectness
  import Calendar

  /** The period before this one, of the same length, where there is one. */
  function PreviousPeriod(p: Period, today: int): Option<Period> {
    match p
    case RollingDays(days) =>
      if days <= 0 then None else Some(BetweenDates(Some(today - days * 2), Some(today - (days + 1))))
    case BetweenDates(Some(from), Some(to)) =>
      if to < from then None
      else
        var span := to - from + 1;
        var previousEnd := from - 1;
        Some(BetweenDates(Some(previousEnd - (span - 1)), Some(previousEnd)))
    case ExactDate(Some(date)) => Some(ExactDate(Some(date - 1)))
    case _ => None
  }

  /** Days a period is asked for. */
  function Length(p: Period): int {
    match p
    case RollingDays(days) => days
    case BetweenDates(Some(from), Some(to)) => to - from + 1
    case _ => 1
  }

  /** The previous window ends exactly where the current one starts, and is as long as asked. */
  lemma PreviousIsAdjacent(p: Period, today: int)
    ensures PreviousPeriod(p, today).Some? <==>
      || (p.RollingDays? && p.days > 0)
      || (p.BetweenDates? && p.from.Some? && p.to.Some? && p.from.value <= p.to.value)
      || (p.ExactDate? && p.date.Some?)
    ensures PreviousPeriod(p, today).Some? ==>
      var previous, current := Window(PreviousPeriod(p, today).value, today), Window(p, today);
      && GovernedPeriod(PreviousPeriod(p, today).value) && GovernedPeriod(p)
      && previous.0.Some? && previous.1.Some? && previous.1 == current.0
      && previous.1.value - previous.0.value == Length(p) * Calendar.MICROS_PER_DAY
      && (current.1.Some? ==> current.1.value - current.0.value == Length(p) * Calendar.MICROS_PER_DAY)
  {
  }

  /** The two periods taken together. */
  function Joint(p: Period): Period {
    match p
    case RollingDays(days) => RollingDays(days * 2)
    case BetweenDates(Some(from), Some(to)) => BetweenDates(Some(from - (to - from + 1)), Some(to))
    case ExactDate(Some(date)) => BetweenDates(Some(date - 1), Some(date))
    case _ => p
  }

  lemma EveryMomentOnce(p: Period, today: int, v: Value)
    requires PreviousPeriod(p, today).Some?
    ensures var previous := PreviousPeriod(p, today).value;
      && !(InPeriod(previous, today, v) && InPeriod(p, today, v))
      && (InPeriod(Joint(p), today, v) <==> InPeriod(previous, today, v) || InPeriod(p, today, v))
  {
  }

  lemma EveryFactOnce(q: Question, floats: Floats, db: Database, today: int, fact: Record)
    requires PreviousPeriod(q.period, today).Some?
    ensures var before := Qualifies(q.(period := PreviousPeriod(q.period, today).value), floats, db, today, fact);
      && !(before && Qualifies(q, floats, db, today, fact))
      && (Qualifies(q.(period := Joint(q.period)), floats, db, today, fact)
          <==> before || Qualifies(q, floats, db, today, fact))
  {
    hide InPeriod, Linked, Matches, PreviousPeriod, Joint;
    EveryMomentOnce(q.period, today, Field(fact, q.grain.timeColumn));
  }

  /** No fact row counts in both figures, and together they count exactly the rows of the
      joint period. */
  lemma {:induction false} BaselineAndCurrentSplit(
    q: Question, floats: Floats, db: Database, today: int, rows: seq<Record>)
    requires PreviousPeriod(q.period, today).Some?
    ensures multiset(Facts(q.(period := PreviousPeriod(q.period, today).value), floats, db, today, rows))
          + multiset(Facts(q, floats, db, today, rows))
         == multiset(Facts(q.(period := Joint(q.period)), floats, db, today, rows))
  {
    hide Qualifies, PreviousPeriod, Joint;
    if rows != [] {
      BaselineAndCurrentSplit(q, floats, db, today, rows[1..]);
      EveryFactOnce(q, floats, db, today, rows[0]);
    }
  }
}
