/** Recurrence rules and their next fire time. */
module Recurrence {
  import opened Calendar

  datatype Frequency = Daily | Weekly | Monthly | Unknown(name: string)

  /** Bit i of daysMask stands for weekday i, Sunday being bit 0; timeOfDay is an offset from midnight. */
  datatype Rule = Rule(freq: Frequency, daysMask: bv8, timeOfDay: int, monthDay: int)

  datatype RuleError = NoWeekday | MonthDayOutOfRange | UnknownFrequency

  datatype Validity = Valid | Invalid(error: RuleError)

  function Validate(r: Rule): Validity {
    match r.freq
    case Daily => Valid
    case Weekly => if r.daysMask == 0 then Invalid(NoWeekday) else Valid
    case Monthly => if r.monthDay < 1 || r.monthDay > 31 then Invalid(MonthDayOutOfRange) else Valid
    case Unknown(_) => Invalid(UnknownFrequency)
  }

  function DayBit(wd: int): (bit: bv8)
    requires 0 <= wd <= 6
  {
    match wd
    case 0 => 1
    case 1 => 2
    case 2 => 4
    case 3 => 8
    case 4 => 16
    case 5 => 32
    case _ => 64
  }

  predicate MaskHas(mask: bv8, wd: int)
    requires 0 <= wd <= 6
  {
    mask & DayBit(wd) != 0
  }

  // ---------------------------------------------------------------- NextAfter

  function NextAfter(r: Rule, t: int): int {
    match r.freq
    case Daily => NextAfterDaily(r, t)
    case Weekly => NextAfterWeekly(r, t)
    case Monthly => NextAfterMonthly(r, t)
    case Unknown(_) => NextAfterDaily(r, t)
  }

  /** The rule's time of day, i days after the day of t. */
  function Candidate(r: Rule, t: int, i: int): int {
    Midnight(DayOf(t) + i) + r.timeOfDay
  }

  function NextAfterDaily(r: Rule, t: int): int {
    if Candidate(r, t, 0) > t then Candidate(r, t, 0) else Candidate(r, t, 1)
  }

  /** The weekday is read off the candidate itself, as the source does. */
  predicate WeekdayMatches(r: Rule, t: int, i: int) {
    MaskHas(r.daysMask, Weekday(DayOf(Candidate(r, t, i))))
  }

  /** The first loop: days i..6 from today, the first permitted candidate after t. */
  function FirstUpcoming(r: Rule, t: int, i: nat): (j: nat)
    requires i <= 7
    ensures i <= j <= 7
    ensures j < 7 ==> WeekdayMatches(r, t, j) && Candidate(r, t, j) > t
    ensures forall k :: i <= k < j ==> !(WeekdayMatches(r, t, k) && Candidate(r, t, k) > t)
    decreases 7 - i
  {
    if i == 7 || (WeekdayMatches(r, t, i) && Candidate(r, t, i) > t) then i
    else FirstUpcoming(r, t, i + 1)
  }

  /** The second loop: days i..7 from today, the first permitted candidate. */
  function FirstPermitted(r: Rule, t: int, i: nat): (j: nat)
    requires 1 <= i <= 8
    ensures i <= j <= 8
    ensures j < 8 ==> WeekdayMatches(r, t, j)
    ensures forall k :: i <= k < j ==> !WeekdayMatches(r, t, k)
    decreases 8 - i
  {
    if i == 8 || WeekdayMatches(r, t, i) then i else FirstPermitted(r, t, i + 1)
  }

  function NextAfterWeekly(r: Rule, t: int): int {
    if r.daysMask == 0 then t
    else
      var i := FirstUpcoming(r, t, 0);
      if i <= 6 then Candidate(r, t, i)
      else
        var j := FirstPermitted(r, t, 1);
        if j <= 7 then Candidate(r, t, j) else t
  }

  /** The rule's instant in a month; past the month's end it runs into the next one. */
  function MonthlyInstant(r: Rule, month: int): int {
    Midnight(DateDay(month, r.monthDay)) + r.timeOfDay
  }

  function NextAfterMonthly(r: Rule, t: int): int {
    var month := MonthOf(DayOf(t));
    if MonthlyInstant(r, month) > t then MonthlyInstant(r, month) else MonthlyInstant(r, month + 1)
  }

  // ------------------------------------------------- what a fire time is, independently

  /** The day is n days into the month, the month's own first day being day 1. */
  predicate IsDayOfMonth(day: int, month: int, n: int) {
    day == FirstDay(month) + n - 1
  }

  /** Daily rules permit every day, weekly rules those whose weekday's bit is set, and monthly
      rules the days that are monthDay days into some month. */
  ghost predicate PermittedDay(r: Rule, day: int) {
    match r.freq
    case Weekly => (r.daysMask >> Weekday(day)) & 1 == 1
    case Monthly => exists month :: IsDayOfMonth(day, month, r.monthDay)
    case _ => true
  }

  /** The instants a rule names: its time of day on the permitted days. */
  ghost predicate IsFireTime(r: Rule, x: int) {
    TimeOf(x) == r.timeOfDay && PermittedDay(r, DayOf(x))
  }

  ghost predicate IsNextFireTime(r: Rule, t: int, n: int) {
    && IsFireTime(r, n)
    && t < n
    && forall x | t < x < n :: !IsFireTime(r, x)
  }

  predicate WellTimed(r: Rule) {
    0 <= r.timeOfDay < DAY
  }

  /** The rules that make progress. Bit 7 of the mask names no weekday. */
  predicate Advancing(r: Rule) {
    && WellTimed(r)
    && (r.freq.Weekly? ==> r.daysMask & 0x7F != 0)
    && (r.freq.Monthly? ==> 1 <= r.monthDay <= 31)
  }

  /** The previous month's instant overflowed into this month and is still to come. */
  predicate OverflowPending(r: Rule, t: int) {
    r.freq.Monthly? && MonthlyInstant(r, MonthOf(DayOf(t)) - 1) > t
  }

  // ------------------------------------------------- day rules

  lemma CandidateParts(r: Rule, t: int, i: int)
    requires WellTimed(r)
    ensures DayOf(Candidate(r, t, i)) == DayOf(t) + i && TimeOf(Candidate(r, t, i)) == r.timeOfDay
  {
  }

  /** Bit wd of the mask stands for weekday wd. */
  lemma BitIsShift(mask: bv8, wd: int)
    requires 0 <= wd <= 6
    ensures MaskHas(mask, wd) <==> (mask >> wd) & 1 == 1
  {
    if wd == 0 {
    } else if wd == 1 {
    } else if wd == 2 {
    } else if wd == 3 {
    } else if wd == 4 {
    } else if wd == 5 {
    } else {
    }
  }

  lemma MaskNamesADay(mask: bv8)
    ensures mask & 0x7F != 0 <==> exists wd | 0 <= wd <= 6 :: MaskHas(mask, wd)
  {
    if mask & 0x7F != 0 {
      assert MaskHas(mask, 0) || MaskHas(mask, 1) || MaskHas(mask, 2) || MaskHas(mask, 3)
          || MaskHas(mask, 4) || MaskHas(mask, 5) || MaskHas(mask, 6);
    } else {
      assert !MaskHas(mask, 0) && !MaskHas(mask, 1) && !MaskHas(mask, 2) && !MaskHas(mask, 3)
          && !MaskHas(mask, 4) && !MaskHas(mask, 5) && !MaskHas(mask, 6);
    }
  }

  /** Any seven days in a row show every weekday. */
  lemma SomeDayPermitted(r: Rule, t: int) returns (k: nat)
    requires Advancing(r) && r.freq.Weekly?
    ensures 1 <= k <= 7 && WeekdayMatches(r, t, k)
  {
    MaskNamesADay(r.daysMask);
    var wd :| 0 <= wd <= 6 && MaskHas(r.daysMask, wd);
    var today := Weekday(DayOf(t));
    k := if wd > today then wd - today else wd - today + 7;
    CandidateParts(r, t, k);
    assert Weekday(DayOf(t) + k) == wd;
  }

  /** Nothing fires between t and day i when no earlier day offers a later permitted candidate. */
  lemma NoEarlierFire(r: Rule, t: int, i: nat, x: int)
    requires WellTimed(r) && !r.freq.Monthly?
    requires t < x < Candidate(r, t, i)
    requires forall k: nat :: k < i ==> !(PermittedDay(r, DayOf(t) + k) && Candidate(r, t, k) > t)
    ensures !IsFireTime(r, x)
  {
    var k := DayOf(x) - DayOf(t);
    assert 0 <= k <= i;
    assert TimeOf(x) == r.timeOfDay ==> x == Candidate(r, t, k) && k < i;
    assert DayOf(x) == DayOf(t) + k;
  }

  lemma DailyIsNext(r: Rule, t: int)
    requires WellTimed(r) && !r.freq.Monthly? && !r.freq.Weekly?
    ensures IsNextFireTime(r, t, NextAfter(r, t))
  {
    var i := if Candidate(r, t, 0) > t then 0 else 1;
    CandidateParts(r, t, i);
    assert NextAfter(r, t) == Candidate(r, t, i);
    forall x | t < x < Candidate(r, t, i) ensures !IsFireTime(r, x) {
      NoEarlierFire(r, t, i, x);
    }
  }

  lemma MatchIsPermitted(r: Rule, t: int, k: nat)
    requires WellTimed(r) && r.freq.Weekly?
    ensures WeekdayMatches(r, t, k) == PermittedDay(r, DayOf(t) + k)
  {
    CandidateParts(r, t, k);
    BitIsShift(r.daysMask, Weekday(DayOf(t) + k));
  }

  lemma LaterDayIsLater(r: Rule, t: int, k: nat)
    requires WellTimed(r) && 1 <= k
    ensures Candidate(r, t, k) > t
  {
  }

  /** When the first search fails no day from tomorrow to the sixth is permitted, so the second
      one ends on today's weekday, a week on. */
  lemma SecondSearch(r: Rule, t: int) returns (i: nat)
    requires Advancing(r) && r.freq.Weekly?
    requires FirstUpcoming(r, t, 0) == 7
    ensures i == 7 && NextAfter(r, t) == Candidate(r, t, i) > t && WeekdayMatches(r, t, i)
    ensures forall k: nat :: k < i ==> !(WeekdayMatches(r, t, k) && Candidate(r, t, k) > t)
  {
    i := FirstPermitted(r, t, 1);
    var some := SomeDayPermitted(r, t);
    LaterDayIsLater(r, t, i);
    MaskNonZero(r);
  }

  lemma FirstSearch(r: Rule, t: int) returns (i: nat)
    requires Advancing(r) && r.freq.Weekly?
    requires FirstUpcoming(r, t, 0) < 7
    ensures i < 7 && NextAfter(r, t) == Candidate(r, t, i) > t && WeekdayMatches(r, t, i)
    ensures forall k: nat :: k < i ==> !(WeekdayMatches(r, t, k) && Candidate(r, t, k) > t)
  {
    i := FirstUpcoming(r, t, 0);
    MaskNonZero(r);
  }

  /** Which of the next seven days the weekly search settles on: the first one whose weekday is
      permitted and whose candidate is after t, today next week included. */
  lemma WeeklyChoice(r: Rule, t: int) returns (i: nat)
    requires Advancing(r) && r.freq.Weekly?
    ensures i <= 7 && NextAfter(r, t) == Candidate(r, t, i) > t
    ensures PermittedDay(r, DayOf(t) + i)
    ensures forall k: nat :: k < i ==> !(PermittedDay(r, DayOf(t) + k) && Candidate(r, t, k) > t)
  {
    if FirstUpcoming(r, t, 0) == 7 {
      i := SecondSearch(r, t);
    } else {
      i := FirstSearch(r, t);
    }
    MatchIsPermitted(r, t, i);
    forall k: nat | k < i ensures !(PermittedDay(r, DayOf(t) + k) && Candidate(r, t, k) > t) {
      MatchIsPermitted(r, t, k);
    }
  }

  lemma MaskNonZero(r: Rule)
    requires Advancing(r) && r.freq.Weekly?
    ensures r.daysMask != 0
  {
  }

  lemma WeeklyIsNext(r: Rule, t: int)
    requires Advancing(r) && r.freq.Weekly?
    ensures IsNextFireTime(r, t, NextAfter(r, t))
  {
    var i := WeeklyChoice(r, t);
    CandidateParts(r, t, i);
    forall x | t < x < Candidate(r, t, i) ensures !IsFireTime(r, x) {
      NoEarlierFire(r, t, i, x);
    }
  }

  /** When only today's weekday is set and its time has passed, the rule fires in a week. */
  lemma WeeklyOnlyTodayPassed(r: Rule, t: int)
    requires WellTimed(r) && r.freq.Weekly?
    requires r.daysMask == DayBit(Weekday(DayOf(t)))
    requires TimeOf(t) >= r.timeOfDay
    ensures NextAfter(r, t) == Candidate(r, t, 7)
  {
    OneBitOneDay(Weekday(DayOf(t)), Weekday(DayOf(t)));
    var i := WeeklyChoice(r, t);
    OnlyToday(r, DayOf(t), i);
  }

  lemma OnlyToday(r: Rule, day: int, i: nat)
    requires r.freq.Weekly? && r.daysMask == DayBit(Weekday(day))
    requires i <= 7 && PermittedDay(r, day + i)
    ensures i == 0 || i == 7
  {
    BitIsShift(r.daysMask, Weekday(day + i));
    OneBitOneDay(Weekday(day), Weekday(day + i));
    SameWeekday(day, i);
  }

  lemma SameWeekday(day: int, i: nat)
    requires i <= 7 && Weekday(day + i) == Weekday(day)
    ensures i == 0 || i == 7
  {
  }

  lemma OneBitOneDay(a: int, b: int)
    requires 0 <= a <= 6 && 0 <= b <= 6
    ensures MaskHas(DayBit(a), b) <==> a == b
    ensures DayBit(a) & 0x7F != 0
  {
  }

  // ------------------------------------------------- monthly rules

  lemma MonthlyInstantsSpread(r: Rule, a: int, b: int)
    requires a <= b
    ensures MonthlyInstant(r, a) + 28 * (b - a) * DAY <= MonthlyInstant(r, b)
              <= MonthlyInstant(r, a) + 31 * (b - a) * DAY
  {
    FirstDayMonotone(a, b);
  }

  /** A monthly rule's fire times are its instants in the months, and nothing else. */
  lemma MonthlyFireTimes(r: Rule, x: int)
    requires WellTimed(r) && r.freq.Monthly?
    ensures IsFireTime(r, x) <==> exists month :: x == MonthlyInstant(r, month)
  {
    if IsFireTime(r, x) {
      var month :| IsDayOfMonth(DayOf(x), month, r.monthDay);
      assert x == MonthlyInstant(r, month);
    }
    if month :| x == MonthlyInstant(r, month) {
      FiresInMonth(r, month);
    }
  }

  lemma FiresInMonth(r: Rule, month: int)
    requires WellTimed(r) && r.freq.Monthly?
    ensures IsFireTime(r, MonthlyInstant(r, month))
  {
    InstantParts(r, month);
    assert IsDayOfMonth(DayOf(MonthlyInstant(r, month)), month, r.monthDay);
  }

  lemma InstantParts(r: Rule, month: int)
    requires WellTimed(r)
    ensures DayOf(MonthlyInstant(r, month)) == DateDay(month, r.monthDay)
    ensures TimeOf(MonthlyInstant(r, month)) == r.timeOfDay
  {
  }

  /** In a month that has the day, the instant reads back as the rule's time on that day of that
      month; in a shorter one it lies as far into the next month as the day is past the end. */
  lemma MonthlyInstantReadsBack(r: Rule, month: int)
    requires WellTimed(r) && r.freq.Monthly? && 1 <= r.monthDay <= 31
    ensures var x := MonthlyInstant(r, month);
      && TimeOf(x) == r.timeOfDay
      && if r.monthDay <= DaysIn(month)
         then MonthOf(DayOf(x)) == month && IsDayOfMonth(DayOf(x), month, r.monthDay)
         else MonthOf(DayOf(x)) == month + 1 && IsDayOfMonth(DayOf(x), month + 1, r.monthDay - DaysIn(month))
  {
    InstantParts(r, month);
    DateOverflow(month, r.monthDay);
    MonthLength(month);
  }

  lemma MonthOfInstant(t: int)
    ensures Midnight(FirstDay(MonthOf(DayOf(t)))) <= t < Midnight(FirstDay(MonthOf(DayOf(t)) + 1))
  {
  }

  /** Strictly later, by at most 31 days, for every day of the month, overflowing or not. */
  lemma MonthlyStep(r: Rule, t: int)
    requires Advancing(r) && r.freq.Monthly?
    ensures t < NextAfter(r, t) <= t + 31 * DAY
  {
    var month := MonthOf(DayOf(t));
    MonthOfInstant(t);
    MonthLength(month);
  }

  lemma MonthlyMonotone(r: Rule, t: int, u: int)
    requires Advancing(r) && r.freq.Monthly? && t <= u
    ensures NextAfter(r, t) <= NextAfter(r, u)
  {
    var a, b := MonthOf(DayOf(t)), MonthOf(DayOf(u));
    MonthMonotone(DayOf(t), DayOf(u));
    if a < b {
      MonthlyInstantsSpread(r, a, a + 1);
      MonthlyInstantsSpread(r, a + 1, b);
      MonthlyInstantsSpread(r, b, b + 1);
    } else {
      MonthlyInstantsSpread(r, a, a + 1);
    }
  }

  /** An instant two or more months back has passed, overflow included. */
  lemma OldInstantsPassed(r: Rule, t: int, month: int)
    requires Advancing(r) && r.freq.Monthly?
    requires month <= MonthOf(DayOf(t)) - 2
    ensures MonthlyInstant(r, month) < Midnight(FirstDay(MonthOf(DayOf(t)))) <= t
  {
    var now := MonthOf(DayOf(t));
    FirstDayMonotone(month, now);
    MonthOfInstant(t);
  }

  /** The monthly rule answers with the least fire time after t exactly when no overflowed
      instant of the previous month is still to come. */
  lemma MonthlyIsNextIff(r: Rule, t: int)
    requires Advancing(r) && r.freq.Monthly?
    ensures IsNextFireTime(r, t, NextAfter(r, t)) <==> !OverflowPending(r, t)
  {
    var month := MonthOf(DayOf(t));
    var n := NextAfter(r, t);
    MonthlyStep(r, t);
    MonthlyInstantsSpread(r, month - 1, month);
    MonthlyInstantsSpread(r, month, month + 1);
    if OverflowPending(r, t) {
      FiresInMonth(r, month - 1);
    } else {
      FiresInMonth(r, month);
      FiresInMonth(r, month + 1);
      forall x | t < x < n ensures !IsFireTime(r, x) {
        MonthlyFireTimes(r, x);
        if m :| x == MonthlyInstant(r, m) {
          NoInstantBetween(r, t, m);
        }
      }
    }
  }

  lemma NoInstantBetween(r: Rule, t: int, m: int)
    requires Advancing(r) && r.freq.Monthly? && !OverflowPending(r, t)
    ensures MonthlyInstant(r, m) <= t || NextAfter(r, t) <= MonthlyInstant(r, m)
  {
    var month := MonthOf(DayOf(t));
    if m <= month - 2 {
      OldInstantsPassed(r, t, m);
    } else if m >= month + 1 {
      MonthlyInstantsSpread(r, month, month + 1);
      MonthlyInstantsSpread(r, month + 1, m);
    }
  }

  /** The guard in calendar terms: the day is past the end of last month, and the first days of
      this month have not used up the overflow. */
  lemma OverflowPendingCalendar(r: Rule, t: int)
    requires Advancing(r) && r.freq.Monthly?
    ensures OverflowPending(r, t) <==>
      var month := MonthOf(DayOf(t));
      && r.monthDay > DaysIn(month - 1)
      && t < Midnight(FirstDay(month) + (r.monthDay - DaysIn(month - 1) - 1)) + r.timeOfDay
    ensures r.monthDay <= 28 ==> !OverflowPending(r, t)
  {
    var month := MonthOf(DayOf(t));
    MonthLength(month - 1);
    MonthOfInstant(t);
  }

  /** Days 1 to 28 never overflow, so the answer is always the least fire time. */
  lemma MonthlyShortDayIsNext(r: Rule, t: int)
    requires Advancing(r) && r.freq.Monthly? && r.monthDay <= 28
    ensures IsNextFireTime(r, t, NextAfter(r, t))
  {
    OverflowPendingCalendar(r, t);
    MonthlyIsNextIff(r, t);
  }

  /** A skipped fire time: day 31 asked on 1 March of a year that is not a leap year answers
      31 March, although February's instant, 3 March, is still to come. */
  lemma MonthlySkipsOverflow(march: int)
    requires march % 12 == 2 && !IsLeap(march / 12)
    ensures var r := Rule(Monthly, 0, 0, 31);
      var t := Midnight(FirstDay(march));
      && Validate(r) == Valid
      && IsFireTime(r, Midnight(FirstDay(march) + 2))
      && NextAfter(r, t) == Midnight(FirstDay(march) + 30)
  {
    FebruaryThirtyFirst(march);
    FiresInMonth(Rule(Monthly, 0, 0, 31), march - 1);
    ThirtyFirst(march);
  }

  lemma FebruaryThirtyFirst(march: int)
    requires march % 12 == 2 && !IsLeap(march / 12)
    ensures MonthlyInstant(Rule(Monthly, 0, 0, 31), march - 1) == Midnight(FirstDay(march) + 2)
  {
    MonthLength(march - 1);
    assert (march - 1) % 12 == 1 && (march - 1) / 12 == march / 12;
  }

  lemma ThirtyFirst(month: int)
    ensures NextAfter(Rule(Monthly, 0, 0, 31), Midnight(FirstDay(month))) == Midnight(FirstDay(month) + 30)
  {
    MonthStartsIn(month);
  }

  lemma MonthStartsIn(month: int)
    ensures MonthOf(DayOf(Midnight(FirstDay(month)))) == month
  {
    MonthLength(month);
    MonthUnique(FirstDay(month), month);
  }

  // ------------------------------------------------- all rules

  lemma IsNextUnlessPending(r: Rule, t: int)
    requires Advancing(r) && !OverflowPending(r, t)
    ensures IsNextFireTime(r, t, NextAfter(r, t))
  {
    match r.freq
    case Weekly => WeeklyIsNext(r, t);
    case Monthly => MonthlyIsNextIff(r, t);
    case _ => DailyIsNext(r, t);
  }

  lemma FiresLater(r: Rule, t: int)
    requires Advancing(r)
    ensures NextAfter(r, t) > t && IsFireTime(r, NextAfter(r, t))
  {
    if r.freq.Monthly? {
      MonthlyStep(r, t);
      FiresInMonth(r, MonthOf(DayOf(t)));
      FiresInMonth(r, MonthOf(DayOf(t)) + 1);
    } else {
      IsNextUnlessPending(r, t);
    }
  }

  /** Among the rules Validate accepts, NextAfter is strictly later at every instant exactly when
      the rule is not the weekly rule whose mask is bit 7 alone; that one answers t itself. */
  lemma ValidRuleAdvancesIff(r: Rule, t: int)
    requires WellTimed(r) && Validate(r) == Valid
    ensures NextAfter(r, t) > t <==> !(r.freq.Weekly? && r.daysMask == 0x80)
    ensures NextAfter(r, t) <= t ==> NextAfter(r, t) == t
    ensures Advancing(r) <==> !(r.freq.Weekly? && r.daysMask == 0x80)
  {
    assert r.daysMask & 0x7F != 0 <==> (r.daysMask != 0 && r.daysMask != 0x80);
    if r.freq.Weekly? && r.daysMask == 0x80 {
      MaskNamesADay(r.daysMask);
      assert forall k :: !WeekdayMatches(r, t, k);
    } else {
      FiresLater(r, t);
    }
  }

  /** A weekly rule whose mask names no weekday answers the instant it was asked at, and no other
      weekly rule does. */
  lemma WeeklyWithoutDaysIff(r: Rule, t: int)
    requires WellTimed(r) && r.freq.Weekly?
    ensures NextAfter(r, t) == t <==> r.daysMask & 0x7F == 0
  {
    if r.daysMask & 0x7F == 0 {
      MaskNamesADay(r.daysMask);
      assert forall k :: !WeekdayMatches(r, t, k);
    } else {
      FiresLater(r, t);
    }
  }

  lemma Monotone(r: Rule, t: int, u: int)
    requires Advancing(r) && t <= u
    ensures NextAfter(r, t) <= NextAfter(r, u)
  {
    if r.freq.Monthly? {
      MonthlyMonotone(r, t, u);
    } else {
      IsNextUnlessPending(r, t);
      IsNextUnlessPending(r, u);
    }
  }

  // ------------------------------------------------- catch-up

  /** Catching up by iteration: step from t until the result is past now. */
  function Iterate(r: Rule, t: int, now: int): int
    requires Advancing(r)
    decreases now - t
  {
    FiresLater(r, t);
    var n := NextAfter(r, t);
    if n > now then n else Iterate(r, n, now)
  }

  /** The one-step case of catch-up: t's next fire time is already past now. */
  lemma LastStepIff(r: Rule, t: int, now: int)
    requires Advancing(r) && t <= now < NextAfter(r, t)
    ensures NextAfter(r, t) == NextAfter(r, now)
       <==> !(OverflowPending(r, now) && MonthOf(DayOf(t)) < MonthOf(DayOf(now)))
  {
    if OverflowPending(r, now) {
      PendingLastStep(r, t, now);
    } else {
      Monotone(r, t, now);
      FiresLater(r, t);
      IsNextUnlessPending(r, now);
    }
  }

  lemma PendingLastStep(r: Rule, t: int, now: int)
    requires Advancing(r) && t <= now < NextAfter(r, t) && OverflowPending(r, now)
    ensures NextAfter(r, t) == NextAfter(r, now) <==> MonthOf(DayOf(t)) == MonthOf(DayOf(now))
    ensures MonthOf(DayOf(t)) <= MonthOf(DayOf(now))
  {
    var a, b := MonthOf(DayOf(t)), MonthOf(DayOf(now));
    MonthMonotone(DayOf(t), DayOf(now));
    MonthlyInstantsSpread(r, b - 1, b);
    if a < b {
      MonthlyInstantsSpread(r, a, b - 1);
      if a + 1 <= b - 1 {
        MonthlyInstantsSpread(r, a + 1, b - 1);
      }
    }
  }

  /** A step that stays at or before now leaves the months' order as it was while an overflowed
      instant is pending at now. */
  lemma StepKeepsOrder(r: Rule, t: int, now: int)
    requires Advancing(r) && OverflowPending(r, now) && NextAfter(r, t) <= now
    ensures MonthOf(DayOf(t)) < MonthOf(DayOf(now)) && MonthOf(DayOf(NextAfter(r, t))) < MonthOf(DayOf(now))
  {
    var n := NextAfter(r, t);
    var b := MonthOf(DayOf(now));
    FiresLater(r, t);
    MonthlyFireTimes(r, n);
    var m :| n == MonthlyInstant(r, m);
    if m >= b - 1 {
      MonthlyInstantsSpread(r, b - 1, m);
      assert false;
    }
    OldInstantsPassed(r, now, m);
    MonthMonotone(DayOf(t), DayOf(n));
    if b <= MonthOf(DayOf(n)) {
      FirstDayMonotone(b, MonthOf(DayOf(n)));
      MonthOfInstant(n);
    }
  }

  /** Catch-up by one call equals catch-up by iteration, for every rule that advances and every
      start, exactly when it is not the case that an overflowed instant is pending at now and the
      iteration starts in an earlier month. */
  lemma {:induction false} CatchUpIff(r: Rule, t: int, now: int)
    requires Advancing(r) && t <= now
    ensures Iterate(r, t, now) == NextAfter(r, now)
       <==> !(OverflowPending(r, now) && MonthOf(DayOf(t)) < MonthOf(DayOf(now)))
    decreases now - t
  {
    FiresLater(r, t);
    var n := NextAfter(r, t);
    if n > now {
      LastStepIff(r, t, now);
    } else {
      CatchUpIff(r, n, now);
      if OverflowPending(r, now) {
        StepKeepsOrder(r, t, now);
      }
    }
  }

  /** For daily rules, weekly rules and monthly rules on days 1 to 28 the two always agree. */
  lemma CatchUpCollapses(r: Rule, t: int, now: int)
    requires Advancing(r) && t <= now && (r.freq.Monthly? ==> r.monthDay <= 28)
    ensures Iterate(r, t, now) == NextAfter(r, now)
  {
    if r.freq.Monthly? {
      OverflowPendingCalendar(r, now);
    }
    CatchUpIff(r, t, now);
  }
}
