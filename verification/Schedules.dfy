/** A task's schedule: run now, run at an instant, or run by a recurrence rule. */
module Schedules {
  import opened Wrappers
  import Calendar
  import Recurrence

  datatype Mode = Asap | Future | Recurring | Unrecognised(name: string)

  datatype Schedule = Schedule(mode: Mode, runAt: Option<int>, rule: Option<Recurrence.Rule>)

  datatype ScheduleError = RunAtMissing | RuleMissing | RuleInvalid(error: Recurrence.RuleError)

  function NextRunAt(s: Schedule, now: int): Option<int> {
    match s.mode
    case Future => s.runAt
    case Recurring => if s.rule.None? then None else Some(Recurrence.NextAfter(s.rule.value, now))
    case _ => None
  }

  function Validate(s: Schedule): Result<(), ScheduleError> {
    match s.mode
    case Future => if s.runAt.None? then Err(RunAtMissing) else Ok(())
    case Recurring =>
      if s.rule.None? then Err(RuleMissing)
      else (match Recurrence.Validate(s.rule.value)
            case Valid => Ok(())
            case Invalid(e) => Err(RuleInvalid(e)))
    case _ => Ok(())
  }

  /** One call on the rule, from now; nil without a rule. */
  function AdvanceToFuture(s: Schedule, now: int): Option<int> {
    if s.rule.None? then None else Some(Recurrence.NextAfter(s.rule.value, now))
  }

  /** A schedule that validates names a next run exactly when its mode is one that waits, and a
      future one names the same instant whatever the time; it is refused exactly when what it
      waits for is missing or names no run. */
  lemma ValidScheduleRuns(s: Schedule, now: int)
    ensures Validate(s).Ok? ==> (NextRunAt(s, now).Some? <==> s.mode.Future? || s.mode.Recurring?)
    ensures s.mode.Future? ==> NextRunAt(s, now) == s.runAt
    ensures Validate(s).Err? <==>
            || (s.mode.Future? && s.runAt.None?)
            || (s.mode.Recurring? && (s.rule.None? || NamesNoRun(s.rule.value)))
  {
  }

  predicate NamesNoRun(rule: Recurrence.Rule) {
    || rule.freq.Unknown?
    || (rule.freq.Weekly? && rule.daysMask == 0)
    || (rule.freq.Monthly? && !(1 <= rule.monthDay <= 31))
  }

  /** An instant of the rule that overflowed into this month is still to come, and the run that was
      missed lies in an earlier month. */
  predicate OverflowMissed(rule: Recurrence.Rule, last: int, now: int) {
    && Recurrence.OverflowPending(rule, now)
    && Calendar.MonthOf(Calendar.DayOf(last)) < Calendar.MonthOf(Calendar.DayOf(now))
  }

  /** However many occurrences were missed since the last run, one call lands on the slot that
      stepping through them one by one reaches, except exactly when an overflowed instant is missed.
      For monthly rules up to day 28 and all others there is none. */
  lemma MissedRunsCollapseIff(s: Schedule, last: int, now: int)
    requires s.rule.Some? && Recurrence.Advancing(s.rule.value) && last <= now
    ensures AdvanceToFuture(s, now) == Some(Recurrence.Iterate(s.rule.value, last, now)) <==>
            !OverflowMissed(s.rule.value, last, now)
    ensures OverflowMissed(s.rule.value, last, now) ==> s.rule.value.freq.Monthly? && s.rule.value.monthDay > 28
    ensures AdvanceToFuture(s, now).value > now
  {
    Recurrence.CatchUpIff(s.rule.value, last, now);
    Recurrence.FiresLater(s.rule.value, now);
    if s.rule.value.freq.Monthly? {
      Recurrence.OverflowPendingCalendar(s.rule.value, now);
    }
  }
}
