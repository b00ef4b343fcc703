/** The HTTP request shapes for schedules and their translation into domain schedules.

    Two library calls are parameters: `lower` stands for strings.ToLower and `scan` for
    fmt.Sscanf with the format "%d:%d". */
module ScheduleRequest {
  import opened Wrappers
  import opened Calendar
  import opened Recurrence
  import Schedules

  datatype RecurrenceRequest = RecurrenceRequest(frequency: string, days: seq<string>, time: string, monthDay: int)

  datatype Request = Request(mode: string, runAt: Option<int>, recurrence: Option<RecurrenceRequest>)

  datatype ParseError =
    | UnknownMode(mode: string)
    | RecurrenceMissing
    | UnknownDay(day: string)
    | BadTimeFormat
    | HourOutOfRange(hour: int)
    | MinuteOutOfRange(minute: int)
    | InvalidSchedule(error: Schedules.ScheduleError)

  type Scanner = string -> Option<(int, int)>

  const HOUR: int := 3_600_000_000_000
  const MINUTE: int := 60_000_000_000

  function FrequencyOf(name: string): Frequency {
    if name == "daily" then Daily
    else if name == "weekly" then Weekly
    else if name == "monthly" then Monthly
    else Unknown(name)
  }

  function WeekdayNamed(day: string): (wd: Option<int>)
    ensures wd.Some? ==> 0 <= wd.value <= 6
  {
    if day == "sunday" then Some(0)
    else if day == "monday" then Some(1)
    else if day == "tuesday" then Some(2)
    else if day == "wednesday" then Some(3)
    else if day == "thursday" then Some(4)
    else if day == "friday" then Some(5)
    else if day == "saturday" then Some(6)
    else None
  }

  function ParseHHMM(s: string, scan: Scanner): Result<int, ParseError> {
    match scan(s)
    case None => Err(BadTimeFormat)
    case Some((h, m)) =>
      if h < 0 || h > 23 then Err(HourOutOfRange(h))
      else if m < 0 || m > 59 then Err(MinuteOutOfRange(m))
      else Ok(h * HOUR + m * MINUTE)
  }

  /** A time is accepted exactly when it is on a 24-hour clock, it lands inside the day, and the
      clock reading can be read back. */
  lemma ParseHHMMClock(s: string, scan: Scanner)
    ensures ParseHHMM(s, scan).Ok? <==>
              scan(s).Some? && 0 <= scan(s).value.0 <= 23 && 0 <= scan(s).value.1 <= 59
    ensures ParseHHMM(s, scan).Ok? ==>
              var tod := ParseHHMM(s, scan).value;
              0 <= tod < DAY && (tod / HOUR, tod % HOUR / MINUTE) == scan(s).value && tod % MINUTE == 0
  {
    match ParseHHMM(s, scan)
    case Ok(tod) =>
      var (h, m) := scan(s).value;
      assert 0 <= m * MINUTE < HOUR;
      assert tod / HOUR == h && tod % HOUR == m * MINUTE;
    case Err(_) =>
  }

  ghost predicate DaysKnown(days: seq<string>, lower: string -> string) {
    forall i | 0 <= i < |days| :: WeekdayNamed(lower(days[i])).Some?
  }

  ghost predicate Names(days: seq<string>, lower: string -> string, wd: int) {
    exists i | 0 <= i < |days| :: WeekdayNamed(lower(days[i])) == Some(wd)
  }

  predicate TimeAccepted(time: string, scan: Scanner) {
    time == "" || ParseHHMM(time, scan).Ok?
  }

  ghost predicate BitIsName(mask: bv8, days: seq<string>, lower: string -> string, wd: int)
    requires 0 <= wd <= 6
  {
    MaskHas(mask, wd) <==> Names(days, lower, wd)
  }

  /** The mask's bits are exactly the named weekdays. */
  ghost predicate MaskIsNames(mask: bv8, days: seq<string>, lower: string -> string) {
    && (forall wd | 0 <= wd <= 6 :: BitIsName(mask, days, lower, wd))
    && mask & 0x80 == 0
  }

  lemma MaskAddsDay(mask: bv8, wd: int, b: int)
    requires 0 <= wd <= 6 && 0 <= b <= 6
    ensures MaskHas(mask | DayBit(wd), b) <==> MaskHas(mask, b) || b == wd
    ensures (mask | DayBit(wd)) & 0x80 == mask & 0x80
  {
  }

  lemma NamesAddsDay(days: seq<string>, lower: string -> string, i: nat, b: int)
    requires i < |days| && 0 <= b <= 6
    ensures Names(days[..i + 1], lower, b) <==> Names(days[..i], lower, b) || WeekdayNamed(lower(days[i])) == Some(b)
  {
    assert days[..i + 1] == days[..i] + [days[i]];
    if Names(days[..i], lower, b) {
      var k :| 0 <= k < i && WeekdayNamed(lower(days[..i][k])) == Some(b);
      assert days[..i + 1][k] == days[..i][k];
    }
    if WeekdayNamed(lower(days[i])) == Some(b) {
      assert days[..i + 1][i] == days[i];
    }
  }

  lemma BitGrows(mask: bv8, days: seq<string>, lower: string -> string, i: nat, b: int)
    requires i < |days| && WeekdayNamed(lower(days[i])).Some?
    requires 0 <= b <= 6 && BitIsName(mask, days[..i], lower, b)
    ensures BitIsName(mask | DayBit(WeekdayNamed(lower(days[i])).value), days[..i + 1], lower, b)
  {
    MaskAddsDay(mask, WeekdayNamed(lower(days[i])).value, b);
    NamesAddsDay(days, lower, i, b);
  }

  lemma MaskGrows(mask: bv8, days: seq<string>, lower: string -> string, i: nat)
    requires i < |days| && WeekdayNamed(lower(days[i])).Some?
    requires MaskIsNames(mask, days[..i], lower)
    ensures MaskIsNames(mask | DayBit(WeekdayNamed(lower(days[i])).value), days[..i + 1], lower)
  {
    var wd := WeekdayNamed(lower(days[i])).value;
    var grown, shown := mask | DayBit(wd), days[..i + 1];
    forall b | 0 <= b <= 6
      ensures BitIsName(grown, shown, lower, b)
    {
      BitGrows(mask, days, lower, i, b);
    }
    MaskAddsDay(mask, wd, wd);
  }

  method ParseRecurrenceRequest(req: RecurrenceRequest, lower: string -> string, scan: Scanner)
    returns (res: Result<Rule, ParseError>)
    ensures res.Ok? <==> DaysKnown(req.days, lower) && TimeAccepted(req.time, scan)
    ensures res.Ok? ==>
              && res.value.freq == FrequencyOf(req.frequency)
              && res.value.monthDay == req.monthDay
              && res.value.timeOfDay == (if req.time == "" then 0 else ParseHHMM(req.time, scan).value)
              && MaskIsNames(res.value.daysMask, req.days, lower)
    ensures res.Err? ==> if DaysKnown(req.days, lower) then res.error == ParseHHMM(req.time, scan).error
                         else exists i | 0 <= i < |req.days| ::
                           && res.error == UnknownDay(req.days[i])
                           && WeekdayNamed(lower(req.days[i])).None?
                           && DaysKnown(req.days[..i], lower)
  {
    var mask: bv8 := 0;
    for i := 0 to |req.days|
      invariant DaysKnown(req.days[..i], lower)
      invariant MaskIsNames(mask, req.days[..i], lower)
    {
      var wd := WeekdayNamed(lower(req.days[i]));
      if wd.None? {
        return Err(UnknownDay(req.days[i]));
      }
      MaskGrows(mask, req.days, lower, i);
      mask := mask | DayBit(wd.value);
    }
    assert req.days[..|req.days|] == req.days;
    var tod := 0;
    if req.time != "" {
      match ParseHHMM(req.time, scan)
      case Err(e) => return Err(e);
      case Ok(t) => tod := t;
    }
    return Ok(Rule(FrequencyOf(req.frequency), mask, tod, req.monthDay));
  }

  /** The rule a well-formed recurrence request stands for may run. */
  ghost predicate RecurrenceAcceptable(req: RecurrenceRequest, lower: string -> string, scan: Scanner) {
    && DaysKnown(req.days, lower)
    && TimeAccepted(req.time, scan)
    && !FrequencyOf(req.frequency).Unknown?
    && (FrequencyOf(req.frequency).Weekly? ==> |req.days| > 0)
    && (FrequencyOf(req.frequency).Monthly? ==> 1 <= req.monthDay <= 31)
  }

  /** What a parsed rule of the frequency lacks when it does not validate. */
  function RuleRefusal(freq: Frequency): RuleError {
    match freq
    case Monthly => MonthDayOutOfRange
    case Unknown(_) => UnknownFrequency
    case _ => NoWeekday
  }

  lemma MaskEmptyIff(mask: bv8, days: seq<string>, lower: string -> string)
    requires DaysKnown(days, lower) && MaskIsNames(mask, days, lower)
    ensures mask == 0 <==> |days| == 0
    ensures mask & 0x7F == mask
  {
    if |days| > 0 {
      var wd := WeekdayNamed(lower(days[0])).value;
      assert Names(days, lower, wd);
      assert BitIsName(mask, days, lower, wd);
      assert MaskHas(mask, wd);
    } else {
      forall wd | 0 <= wd <= 6 ensures !MaskHas(mask, wd) {
        assert BitIsName(mask, days, lower, wd);
      }
      MaskNamesADay(mask);
    }
    assert mask & 0x80 == 0 ==> mask & 0x7F == mask;
  }

  /** A parsed rule that validates fires strictly after every instant. */
  lemma ParsedRuleAdvances(r: Rule, req: RecurrenceRequest, lower: string -> string, scan: Scanner)
    requires DaysKnown(req.days, lower) && TimeAccepted(req.time, scan)
    requires r.freq == FrequencyOf(req.frequency) && r.monthDay == req.monthDay
    requires r.timeOfDay == (if req.time == "" then 0 else ParseHHMM(req.time, scan).value)
    requires MaskIsNames(r.daysMask, req.days, lower)
    ensures WellTimed(r)
    ensures Validate(r) == Valid <==> RecurrenceAcceptable(req, lower, scan)
    ensures Validate(r) == Valid ==> Advancing(r) && forall now :: NextAfter(r, now) > now
  {
    ParseHHMMClock(req.time, scan);
    MaskEmptyIff(r.daysMask, req.days, lower);
    if Validate(r) == Valid {
      forall now ensures NextAfter(r, now) > now {
        FiresLater(r, now);
      }
    }
  }

  // ------------------------------------------------- what a request asks for, in its own words

  /** The name of a day's weekday. Day 0, 1 January 1970, was a Thursday. */
  function DayName(day: int): string {
    ["thursday", "friday", "saturday", "sunday", "monday", "tuesday", "wednesday"][day % 7]
  }

  /** hh:mm past midnight, or midnight itself when no time is given. */
  ghost predicate TimeAsked(time: string, scan: Scanner, tod: int) {
    if time == "" then tod == 0
    else scan(time).Some? && tod == (scan(time).value.0 * 60 + scan(time).value.1) * 60_000_000_000
  }

  ghost predicate DayAsked(req: RecurrenceRequest, lower: string -> string, day: int) {
    match req.frequency
    case "weekly" => exists i | 0 <= i < |req.days| :: lower(req.days[i]) == DayName(day)
    case "monthly" => exists month :: IsDayOfMonth(day, month, req.monthDay)
    case _ => true
  }

  ghost predicate AskedFor(req: RecurrenceRequest, lower: string -> string, scan: Scanner, x: int) {
    TimeAsked(req.time, scan, TimeOf(x)) && DayAsked(req, lower, DayOf(x))
  }

  lemma NameIsDayName(name: string, day: int)
    ensures WeekdayNamed(name) == Some(Weekday(day)) <==> name == DayName(day)
  {
    var k := day % 7;
    assert Weekday(day) == if k <= 2 then k + 4 else k - 3;
    assert DayName(day) == ["thursday", "friday", "saturday", "sunday", "monday", "tuesday", "wednesday"][k];
  }

  /** A parsed weekly rule permits exactly the days whose names the request lists. */
  lemma DaysAsked(r: Rule, req: RecurrenceRequest, lower: string -> string, day: int)
    requires req.frequency == "weekly" && r.freq.Weekly?
    requires MaskIsNames(r.daysMask, req.days, lower)
    ensures PermittedDay(r, day) <==> DayAsked(req, lower, day)
  {
    BitIsShift(r.daysMask, Weekday(day));
    assert BitIsName(r.daysMask, req.days, lower, Weekday(day));
    forall i | 0 <= i < |req.days|
      ensures WeekdayNamed(lower(req.days[i])) == Some(Weekday(day)) <==> lower(req.days[i]) == DayName(day)
    {
      NameIsDayName(lower(req.days[i]), day);
    }
  }

  lemma TimeIsAsked(req: RecurrenceRequest, scan: Scanner, tod: int)
    requires TimeAccepted(req.time, scan)
    ensures tod == (if req.time == "" then 0 else ParseHHMM(req.time, scan).value) <==>
            TimeAsked(req.time, scan, tod)
  {
    ParseHHMMClock(req.time, scan);
  }

  lemma FiresAsAsked(r: Rule, req: RecurrenceRequest, lower: string -> string, scan: Scanner, x: int)
    requires RecurrenceAcceptable(req, lower, scan)
    requires r.freq == FrequencyOf(req.frequency) && r.monthDay == req.monthDay
    requires r.timeOfDay == (if req.time == "" then 0 else ParseHHMM(req.time, scan).value)
    requires MaskIsNames(r.daysMask, req.days, lower)
    ensures IsFireTime(r, x) <==> AskedFor(req, lower, scan, x)
  {
    TimeIsAsked(req, scan, TimeOf(x));
    if r.freq.Weekly? {
      DaysAsked(r, req, lower, DayOf(x));
    }
  }

  /** The next run of an accepted request is a later instant that it asks for, and the first such
      one exactly when no overflowed instant of the previous month is still to come. */
  lemma RunsAsAskedIff(r: Rule, req: RecurrenceRequest, lower: string -> string, scan: Scanner, now: int)
    requires RecurrenceAcceptable(req, lower, scan)
    requires r.freq == FrequencyOf(req.frequency) && r.monthDay == req.monthDay
    requires r.timeOfDay == (if req.time == "" then 0 else ParseHHMM(req.time, scan).value)
    requires MaskIsNames(r.daysMask, req.days, lower)
    ensures now < NextAfter(r, now) && AskedFor(req, lower, scan, NextAfter(r, now))
    ensures (forall x | now < x < NextAfter(r, now) :: !AskedFor(req, lower, scan, x)) <==> !OverflowPending(r, now)
    ensures OverflowPending(r, now) ==> req.frequency == "monthly" && req.monthDay > 28
  {
    ParsedRuleAdvances(r, req, lower, scan);
    FiresLater(r, now);
    forall x
      ensures IsFireTime(r, x) <==> AskedFor(req, lower, scan, x)
    {
      FiresAsAsked(r, req, lower, scan, x);
    }
    if r.freq.Monthly? {
      OverflowPendingCalendar(r, now);
      MonthlyIsNextIff(r, now);
    } else {
      IsNextUnlessPending(r, now);
    }
  }

  /** A schedule's next run is the first later instant the request asks for; a day past the 28th
      may skip one that overflowed into the month. */
  ghost predicate RunsAsAsked(s: Schedules.Schedule, req: RecurrenceRequest, lower: string -> string,
                              scan: Scanner, now: int)
  {
    var n := Schedules.NextRunAt(s, now);
    && n.Some? && now < n.value && AskedFor(req, lower, scan, n.value)
    && ((req.frequency == "monthly" && req.monthDay > 28)
        || forall x | now < x < n.value :: !AskedFor(req, lower, scan, x))
  }

  lemma ScheduleRunsAsAsked(s: Schedules.Schedule, req: RecurrenceRequest, lower: string -> string, scan: Scanner)
    requires RecurrenceAcceptable(req, lower, scan)
    requires s.mode.Recurring? && s.rule.Some?
    requires s.rule.value.freq == FrequencyOf(req.frequency) && s.rule.value.monthDay == req.monthDay
    requires s.rule.value.timeOfDay == (if req.time == "" then 0 else ParseHHMM(req.time, scan).value)
    requires MaskIsNames(s.rule.value.daysMask, req.days, lower)
    ensures forall now :: RunsAsAsked(s, req, lower, scan, now)
  {
    forall now
      ensures RunsAsAsked(s, req, lower, scan, now)
    {
      RunsAsAskedIff(s.rule.value, req, lower, scan, now);
    }
  }

  method ParseScheduleRequest(request: Option<Request>, lower: string -> string, scan: Scanner)
    returns (res: Result<Schedules.Schedule, ParseError>)
    // A missing request or mode means "now"; so does naming it.
    ensures request.None? || request.value.mode in {"", "asap"} ==>
              res == Ok(Schedules.Schedule(Schedules.Asap, None, None))
    ensures request.Some? && request.value.mode == "future" ==>
              res == if request.value.runAt.Some?
                     then Ok(Schedules.Schedule(Schedules.Future, request.value.runAt, None))
                     else Err(InvalidSchedule(Schedules.RunAtMissing))
    ensures request.Some? && request.value.mode !in {"", "asap", "future", "recurring"} ==>
              res == Err(UnknownMode(request.value.mode))
    ensures request.Some? && request.value.mode == "recurring" ==>
              (res.Ok? <==> request.value.recurrence.Some?
                            && RecurrenceAcceptable(request.value.recurrence.value, lower, scan))
    ensures request.Some? && request.value.mode == "recurring" && request.value.recurrence.None? ==>
              res == Err(RecurrenceMissing)
    // A refused one says why: the first unknown day, else the time, else what the rule lacks.
    ensures request.Some? && request.value.mode == "recurring" && request.value.recurrence.Some? && res.Err? ==>
              var req := request.value.recurrence.value;
              if !DaysKnown(req.days, lower) then
                exists i | 0 <= i < |req.days| ::
                  && res.error == UnknownDay(req.days[i])
                  && WeekdayNamed(lower(req.days[i])).None?
                  && DaysKnown(req.days[..i], lower)
              else if !TimeAccepted(req.time, scan) then res.error == ParseHHMM(req.time, scan).error
              else res.error == InvalidSchedule(Schedules.RuleInvalid(RuleRefusal(FrequencyOf(req.frequency))))
    // An accepted recurring schedule holds what was asked for and, from every instant, runs next
    // when the request says.
    ensures request.Some? && request.value.mode == "recurring" && res.Ok? ==>
              var req := request.value.recurrence.value;
              && res.value.mode == Schedules.Recurring && res.value.rule.Some?
              && 0 <= res.value.rule.value.timeOfDay < DAY
              && res.value.rule.value.freq == FrequencyOf(req.frequency)
              && res.value.rule.value.monthDay == req.monthDay
              && res.value.rule.value.timeOfDay == (if req.time == "" then 0 else ParseHHMM(req.time, scan).value)
              && MaskIsNames(res.value.rule.value.daysMask, req.days, lower)
              && forall now :: RunsAsAsked(res.value, req, lower, scan, now)
  {
    if request.None? || request.value.mode == "" {
      return Ok(Schedules.Schedule(Schedules.Asap, None, None));
    }
    var req := request.value;
    if req.mode == "asap" {
      return Ok(Schedules.Schedule(Schedules.Asap, None, None));
    } else if req.mode == "future" {
      var s := Schedules.Schedule(Schedules.Future, req.runAt, None);
      match Schedules.Validate(s)
      case Err(e) => return Err(InvalidSchedule(e));
      case Ok(_) => return Ok(s);
    } else if req.mode == "recurring" {
      if req.recurrence.None? {
        return Err(RecurrenceMissing);
      }
      var rule := ParseRecurrenceRequest(req.recurrence.value, lower, scan);
      if rule.Err? {
        return Err(rule.error);
      }
      var s := Schedules.Schedule(Schedules.Recurring, None, Some(rule.value));
      ParsedRuleAdvances(rule.value, req.recurrence.value, lower, scan);
      match Schedules.Validate(s)
      case Err(e) => return Err(InvalidSchedule(e));
      case Ok(_) =>
        ScheduleRunsAsAsked(s, req.recurrence.value, lower, scan);
        return Ok(s);
    } else {
      return Err(UnknownMode(req.mode));
    }
  }
}
