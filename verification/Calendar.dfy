/** Gregorian calendar arithmetic at a fixed UTC offset, as Go's time package does it.

    An instant is an integer count of nanoseconds since local midnight of
    1970-01-01. A day is counted from the same origin, and a month is counted as
    12 * year + (month - 1), so that adding to a month carries into the year the
    way time.Date normalises it. */
module Calendar {
  const DAY: int := 86_400_000_000_000
  const DAYS_BEFORE_1970: int := 719_528

  function DayOf(t: int): int { t / DAY }

  function TimeOf(t: int): int { t % DAY }

  function Midnight(day: int): int { day * DAY }

  /** Sunday is 0; 1970-01-01 was a Thursday. */
  function Weekday(day: int): (wd: int)
    ensures 0 <= wd <= 6
  {
    (day + 4) % 7
  }

  predicate IsLeap(year: int) {
    year % 4 == 0 && (year % 100 != 0 || year % 400 == 0)
  }

  function DaysIn(month: int): (n: int)
    ensures 28 <= n <= 31
  {
    var m := month % 12;
    if m == 1 then (if IsLeap(month / 12) then 29 else 28)
    else if m == 3 || m == 5 || m == 8 || m == 10 then 30
    else 31
  }

  const EPOCH_MONTH: int := 12 * 1970

  /** Days from 1 January of year 0 to 1 January of the given year. */
  function DaysBeforeYear(year: int): int {
    365 * year + (year + 3) / 4 - (year + 99) / 100 + (year + 399) / 400
  }

  function DaysBeforeMonth(month: int): int {
    var m := month % 12;
    var leap := if IsLeap(month / 12) then 1 else 0;
    match m
    case 0 => 0
    case 1 => 31
    case 2 => 59 + leap
    case 3 => 90 + leap
    case 4 => 120 + leap
    case 5 => 151 + leap
    case 6 => 181 + leap
    case 7 => 212 + leap
    case 8 => 243 + leap
    case 9 => 273 + leap
    case 10 => 304 + leap
    case _ => 334 + leap
  }

  /** The day number of the first day of a month: the month lengths laid end to end,
      from January 1970 in both directions. */
  function FirstDay(month: int): int
    decreases if EPOCH_MONTH <= month then month - EPOCH_MONTH else EPOCH_MONTH - month
  {
    if month == EPOCH_MONTH then 0
    else if EPOCH_MONTH < month then FirstDay(month - 1) + DaysIn(month - 1)
    else FirstDay(month + 1) - DaysIn(month)
  }

  lemma MonthLength(month: int)
    ensures FirstDay(month + 1) == FirstDay(month) + DaysIn(month)
  {
  }

  function ClosedForm(month: int): int {
    DaysBeforeYear(month / 12) + DaysBeforeMonth(month) - DAYS_BEFORE_1970
  }

  lemma YearLength(year: int)
    ensures DaysBeforeYear(year + 1) == DaysBeforeYear(year) + (if IsLeap(year) then 366 else 365)
  {
    Fours(year);
    Hundreds(year);
    FourHundreds(year);
  }

  lemma Fours(year: int)
    ensures (year + 4) / 4 == (year + 3) / 4 + (if year % 4 == 0 then 1 else 0)
  {
  }

  lemma Hundreds(year: int)
    ensures (year + 100) / 100 == (year + 99) / 100 + (if year % 100 == 0 then 1 else 0)
  {
  }

  lemma FourHundreds(year: int)
    ensures (year + 400) / 400 == (year + 399) / 400 + (if year % 400 == 0 then 1 else 0)
  {
  }

  lemma ClosedFormStep(month: int)
    ensures ClosedForm(month + 1) == ClosedForm(month) + DaysIn(month)
  {
    YearLength(month / 12);
    if month % 12 == 11 {
      assert (month + 1) / 12 == month / 12 + 1 && (month + 1) % 12 == 0;
    } else {
      assert (month + 1) / 12 == month / 12 && (month + 1) % 12 == month % 12 + 1;
    }
  }

  lemma ClosedFormEpoch()
    ensures ClosedForm(EPOCH_MONTH) == 0
  {
  }

  /** The day count by centuries and leap years agrees with the month lengths laid end to end. */
  lemma {:induction false} FirstDayClosedForm(month: int)
    ensures FirstDay(month) == ClosedForm(month)
    decreases if EPOCH_MONTH <= month then month - EPOCH_MONTH else EPOCH_MONTH - month
  {
    if month == EPOCH_MONTH {
      ClosedFormEpoch();
    } else if EPOCH_MONTH < month {
      FirstDayClosedForm(month - 1);
      ClosedFormStep(month - 1);
    } else {
      FirstDayClosedForm(month + 1);
      ClosedFormStep(month);
    }
  }

  /** The first of January, in days from 1 January 1970. */
  lemma YearStart(year: int)
    ensures FirstDay(12 * year) == DaysBeforeYear(year) - DAYS_BEFORE_1970
  {
    var january := 12 * year;
    FirstDayClosedForm(january);
    assert january / 12 == year && january % 12 == 0;
  }

  /** 1 January 2024, day 19,723, was a Monday, and weekdays repeat every seven days. */
  lemma WeekdayFromAMonday(day: int, wd: int)
    requires 0 <= wd <= 6
    ensures DaysBeforeYear(2024) - DAYS_BEFORE_1970 == 19_723
    ensures Weekday(day) == wd <==> (day - 19_723) % 7 == (wd + 6) % 7
  {
  }

  lemma {:induction false} FirstDayMonotone(a: int, b: int)
    requires a <= b
    ensures FirstDay(a) + 28 * (b - a) <= FirstDay(b) <= FirstDay(a) + 31 * (b - a)
    decreases b - a
  {
    if a < b {
      FirstDayMonotone(a, b - 1);
      MonthLength(b - 1);
    }
  }

  /** The month that holds a day, found by walking from a guess. */
  function MonthFrom(day: int, guess: int): (month: int)
    ensures FirstDay(month) <= day < FirstDay(month + 1)
    decreases if day < FirstDay(guess) then FirstDay(guess) - day
              else if FirstDay(guess + 1) <= day then day - FirstDay(guess + 1) + 1 else 0
  {
    if day < FirstDay(guess) then
      MonthLength(guess - 1);
      MonthFrom(day, guess - 1)
    else if FirstDay(guess + 1) <= day then
      MonthLength(guess + 1);
      MonthFrom(day, guess + 1)
    else guess
  }

  function MonthOf(day: int): (month: int)
    ensures FirstDay(month) <= day < FirstDay(month + 1)
  {
    MonthFrom(day, EPOCH_MONTH)
  }

  /** A day lies in exactly one month, so building a date and reading its month back agree. */
  lemma MonthUnique(day: int, month: int)
    requires FirstDay(month) <= day < FirstDay(month + 1)
    ensures MonthOf(day) == month
  {
    var m := MonthOf(day);
    if m < month {
      FirstDayMonotone(m + 1, month);
    } else if month < m {
      FirstDayMonotone(month + 1, m);
    }
  }

  lemma MonthMonotone(d: int, e: int)
    requires d <= e
    ensures MonthOf(d) <= MonthOf(e)
  {
    if MonthOf(e) < MonthOf(d) {
      FirstDayMonotone(MonthOf(e) + 1, MonthOf(d));
    }
  }

  /** time.Date(y, m, dayOfMonth, 0, ...): the day of the month may run over or under. */
  function DateDay(month: int, dayOfMonth: int): int {
    FirstDay(month) + dayOfMonth - 1
  }

  /** Reading back the month of a built date: overflow lands in the next month exactly when
      the day of the month is past the month's length. */
  lemma DateOverflow(month: int, dayOfMonth: int)
    requires 1 <= dayOfMonth <= 31
    ensures MonthOf(DateDay(month, dayOfMonth)) == (if dayOfMonth <= DaysIn(month) then month else month + 1)
  {
    MonthLength(month);
    MonthLength(month + 1);
    MonthUnique(DateDay(month, dayOfMonth), if dayOfMonth <= DaysIn(month) then month else month + 1);
  }
}
