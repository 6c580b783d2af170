/** The one-year search horizon in UTC: exactly when a parsed schedule has no next run, and why
    the second-stepping and minute-stepping searches agree. */
module CronHorizon {
  import opened Wrappers
  import opened Calendar
  import opened CronFields
  import opened Cron

  // ---- An instant matches by its day and by its time of day ----

  predicate TimeOk(c: CronSchedule, timeOfDay: int) {
    && c.hours.Contains(timeOfDay / HOUR) && c.minutes.Contains(timeOfDay % HOUR / MINUTE)
    && (if c.hasSeconds then c.seconds.Contains(timeOfDay % MINUTE) else timeOfDay % MINUTE == 0)
  }

  predicate DateOk(c: CronSchedule, day: int) {
    var d := DateOf(day);
    c.months.Contains(d.month) && MatchesDay(c.dom, c.dow, Clock(d.month, d.day, 0, 0, 0, Weekday(day)))
  }

  lemma MatchSplits(c: CronSchedule, t: Time)
    requires c.zone == UTC()
    ensures c.OnBoundary(t) && c.Matches(t) <==> TimeOk(c, TimeOfDay(t)) && DateOk(c, DayOf(t))
  {
    hide YearOf, DaysBefore, DaysBeforeYear, MonthFrom;
    assert t % MINUTE == TimeOfDay(t) % MINUTE;
  }

  lemma HasMember(s: set<int>)
    ensures s != {} ==> exists v :: v in s
  {
    if forall v :: v !in s {
      assert s == {};
    }
  }

  lemma PickValue(f: Field, min: int, max: int) returns (v: int)
    requires min <= max && f.WellFormed(min, max)
    ensures min <= v <= max && f.Contains(v)
  {
    v := min;
    if !f.any {
      HasMember(f.values);
      v :| v in f.values;
    }
  }

  /** Some time of day is selected. */
  lemma PickTime(c: CronSchedule) returns (s: int)
    requires c.WellFormed()
    ensures 0 <= s < DAY && TimeOk(c, s)
  {
    var h := PickValue(c.hours, 0, 23);
    var m := PickValue(c.minutes, 0, 59);
    var x := 0;
    if c.hasSeconds {
      x := PickValue(c.seconds, 0, 59);
    }
    s := h * HOUR + m * MINUTE + x;
    assert s / HOUR == h && s % HOUR == m * MINUTE + x;
    assert s % HOUR / MINUTE == m && s % MINUTE == x;
  }

  // ---- The window as a stretch of days ----

  /** First and last, possibly partial, day of the search window. */
  function FirstDay(c: CronSchedule, after: Time): int {
    DayOf(c.Start(after))
  }

  function LastDay(c: CronSchedule, after: Time): int {
    DayOf(AddYear(c.Start(after)))
  }

  lemma MatchInside(c: CronSchedule, after: Time, day: int, timeOfDay: int)
    requires c.WellFormed() && c.zone == UTC()
    requires 0 <= timeOfDay < DAY && TimeOk(c, timeOfDay) && DateOk(c, day)
    requires c.Start(after) <= DAY * day + timeOfDay < AddYear(c.Start(after))
    ensures Next(c, after).Some?
  {
    hide YearOf, DaysBefore, DaysBeforeYear, MonthFrom, Search, DateOk, TimeOk, AddYear;
    var t := DAY * day + timeOfDay;
    SplitInstant(day, timeOfDay);
    MatchSplits(c, t);
    StartIsFirstBoundary(c, after);
    NextIsLeast(c, after);
    assert c.InWindow(after, t);
  }

  /** A selected day strictly inside the window gives a next run. */
  lemma WholeDay(c: CronSchedule, after: Time, day: int)
    requires c.WellFormed() && c.zone == UTC()
    requires FirstDay(c, after) < day < LastDay(c, after) && DateOk(c, day)
    ensures Next(c, after).Some?
  {
    hide YearOf, DaysBefore, DaysBeforeYear, MonthFrom, Search, DateOk, TimeOk, AddYear;
    var s := PickTime(c);
    MatchInside(c, after, day, s);
  }

  /** So does a date falling on both partial days, which share a time of day. */
  lemma BothEnds(c: CronSchedule, after: Time)
    requires c.WellFormed() && c.zone == UTC()
    requires DateOk(c, FirstDay(c, after)) && DateOk(c, LastDay(c, after))
    ensures Next(c, after).Some?
  {
    hide YearOf, DaysBefore, DaysBeforeYear, MonthFrom, Search, DateOk, TimeOk, AddYear;
    var s := PickTime(c);
    AddYearShape(c.Start(after));
    if s >= TimeOfDay(c.Start(after)) {
      MatchInside(c, after, FirstDay(c, after), s);
    } else {
      MatchInside(c, after, LastDay(c, after), s);
    }
  }

  predicate Before(a: Date, b: Date) {
    a.year < b.year || (a.year == b.year && (a.month < b.month || (a.month == b.month && a.day < b.day)))
  }

  lemma DatesInOrder(a: Date, b: Date)
    requires ValidDate(a) && ValidDate(b)
    ensures Before(a, b) <==> DayNumber(a) < DayNumber(b)
  {
    if Before(a, b) {
      OrderedDates(a, b);
    } else if Before(b, a) {
      OrderedDates(b, a);
    } else {
      assert a == b;
    }
  }

  lemma OrderedDates(a: Date, b: Date)
    requires ValidDate(a) && ValidDate(b) && Before(a, b)
    ensures DayNumber(a) < DayNumber(b)
  {
    hide DaysBeforeYear, DaysIn;
    DayInsideYear(a);
    DayInsideYear(b);
    if a.year < b.year {
      YearsMonotone(a.year + 1, b.year);
    } else if a.month < b.month {
      MonthsMonotone(a.month + 1, b.month, Leap(a.year));
    }
  }

  /** The window's first and last day. */
  lemma WindowDates(c: CronSchedule, after: Time)
    ensures var first := DateOf(FirstDay(c, after)); var last := DateOf(LastDay(c, after));
      && ValidDate(first) && ValidDate(last) && last == YearOn(first)
      && DayNumber(first) == FirstDay(c, after) && DayNumber(last) == LastDay(c, after)
  {
    hide YearOf, DaysBefore, DaysBeforeYear, MonthFrom, AddYear;
    AddYearShape(c.Start(after));
    DateOfIsInverse(FirstDay(c, after));
    DateOfIsInverse(LastDay(c, after));
  }

  /** A valid date strictly between the window's ends is a whole day of the window. */
  lemma DateInside(c: CronSchedule, after: Time, d: Date)
    requires ValidDate(d)
    ensures Before(DateOf(FirstDay(c, after)), d) && Before(d, DateOf(LastDay(c, after)))
      <==> FirstDay(c, after) < DayNumber(d) < LastDay(c, after)
    ensures DateOf(DayNumber(d)) == d
  {
    hide *;
    WindowDates(c, after);
    DatesInOrder(DateOf(FirstDay(c, after)), d);
    DatesInOrder(d, DateOf(LastDay(c, after)));
    DayNumberIsInverse(d);
  }

  // ---- Every month meets every weekday inside the window ----

  /** Seven consecutive whole days of the window, all in the given month. */
  lemma WeekOfMonth(c: CronSchedule, after: Time, month: int) returns (day: Date)
    requires 1 <= month <= 12
    ensures day.month == month && 1 <= day.day <= 21
    ensures Before(DateOf(FirstDay(c, after)), day)
    ensures Before(day.(day := day.day + 6), DateOf(LastDay(c, after)))
  {
    hide YearOf, DaysBefore, DaysBeforeYear, MonthFrom, FirstDay, LastDay, DateOf, DayNumber;
    WindowDates(c, after);
    var first := DateOf(FirstDay(c, after));
    if month > first.month {
      day := Date(first.year, month, 1);
    } else if month == first.month && first.day <= 14 {
      day := Date(first.year, month, first.day + 1);
    } else {
      day := Date(first.year + 1, month, 1);
    }
  }

  lemma WeekdayInMonth(c: CronSchedule, after: Time, month: int, weekday: int) returns (day: int)
    requires 1 <= month <= 12 && 0 <= weekday <= 6
    ensures FirstDay(c, after) < day < LastDay(c, after)
    ensures DateOf(day).month == month && Weekday(day) == weekday
  {
    hide YearOf, DaysBefore, DaysBeforeYear, MonthFrom, FirstDay, LastDay, DateOf;
    var monday := WeekOfMonth(c, after, month);
    var ahead := (weekday - Weekday(DayNumber(monday))) % 7;
    var d := monday.(day := monday.day + ahead);
    DateInside(c, after, d);
    day := DayNumber(d);
    assert day == DayNumber(monday) + ahead;
  }

  // ---- Exactly when there is no next run ----

  /** A 29 February instant the schedule may still use lies inside the window: the leap day is
      ahead, or the search starts on it with a selected time of day left. */
  ghost predicate LeapDayAhead(c: CronSchedule, start: Time) {
    var d := DateOf(DayOf(start));
    || (Leap(d.year) && Before(d, Date(d.year, 2, 29)))
    || (Leap(d.year + 1) && d.month >= 3)
    || (d.month == 2 && d.day == 29 && exists s :: TimeOfDay(start) <= s < DAY && TimeOk(c, s))
  }

  /** The pair of a selected month and a selected day of the month exists in the window. */
  ghost predicate Reachable(c: CronSchedule, start: Time, month: int, day: int) {
    day <= DaysIn(month, false) || (month == 2 && day == 29 && LeapDayAhead(c, start))
  }

  ghost predicate SelectsOnlyDates(c: CronSchedule) {
    c.dow.any && !c.dom.any
  }

  ghost predicate NothingReachable(c: CronSchedule, after: Time) {
    && SelectsOnlyDates(c)
    && forall m, d :: 1 <= m <= 12 && c.months.Contains(m) && d in c.dom.values ==> !Reachable(c, c.Start(after), m, d)
  }

  lemma NextByWeekday(c: CronSchedule, after: Time)
    requires c.WellFormed() && c.zone == UTC() && !SelectsOnlyDates(c)
    ensures Next(c, after).Some?
  {
    hide YearOf, DaysBefore, DaysBeforeYear, MonthFrom, FirstDay, LastDay, DateOf, Next;
    var m := PickValue(c.months, 1, 12);
    var w := PickValue(c.dow, 0, 6);
    var day := WeekdayInMonth(c, after, m, w);
    WholeDay(c, after, day);
  }

  lemma NextByDate(c: CronSchedule, after: Time, month: int, day: int)
    requires c.WellFormed() && c.zone == UTC() && c.dow.any
    requires 1 <= month <= 12 && c.months.Contains(month) && 1 <= day && c.dom.Contains(day)
    requires Reachable(c, c.Start(after), month, day)
    ensures Next(c, after).Some?
  {
    hide YearOf, DaysBefore, DaysBeforeYear, MonthFrom, DateOf, DayNumber, Next, TimeOk;
    WindowDates(c, after);
    var first := DateOf(FirstDay(c, after));
    var here, later := Date(first.year, month, day), Date(first.year + 1, month, day);
    if ValidDate(here) && Before(first, here) {
      DateInside(c, after, here);
      WholeDay(c, after, DayNumber(here));
    } else if ValidDate(later) && Before(later, YearOn(first)) {
      DateInside(c, after, later);
      WholeDay(c, after, DayNumber(later));
    } else if day <= DaysIn(month, false) {
      assert here == first;
      BothEnds(c, after);
    } else {
      assert here == first;
      var s :| TimeOfDay(c.Start(after)) <= s < DAY && TimeOk(c, s);
      AddYearShape(c.Start(after));
      MatchInside(c, after, FirstDay(c, after), s);
    }
  }

  lemma MatchIsReachable(c: CronSchedule, after: Time, t: Time)
    requires c.WellFormed() && c.zone == UTC() && SelectsOnlyDates(c)
    requires c.InWindow(after, t) && c.Matches(t)
    ensures var d := DateOf(DayOf(t));
      1 <= d.month <= 12 && c.months.Contains(d.month) && d.day in c.dom.values
      && Reachable(c, c.Start(after), d.month, d.day)
  {
    hide YearOf, DaysBefore, DaysBeforeYear, MonthFrom, DateOf, TimeOk, AddYear;
    MatchSplits(c, t);
    DateOfIsInverse(DayOf(t));
    WindowDates(c, after);
    StartIsFirstBoundary(c, after);
    AddYearShape(c.Start(after));
    var first, d := DateOf(FirstDay(c, after)), DateOf(DayOf(t));
    DatesInOrder(first, d);
    DatesInOrder(d, YearOn(first));
    if d.day > DaysIn(d.month, false) {
      assert d.month == 2 && d.day == 29;
      if d == first {
        assert TimeOk(c, TimeOfDay(t));
      }
    }
  }

  /** In UTC a parsed schedule has no next run exactly when it selects by date only and no
      selected date exists in the coming year. */
  lemma NoNextRunExactly(c: CronSchedule, after: Time)
    requires c.WellFormed() && c.zone == UTC()
    ensures Next(c, after) == None <==> NothingReachable(c, after)
  {
    hide YearOf, DaysBefore, DaysBeforeYear, MonthFrom, DateOf, TimeOk, AddYear, Reachable, Next;
    if !SelectsOnlyDates(c) {
      NextByWeekday(c, after);
    } else if !NothingReachable(c, after) {
      var m, d :| 1 <= m <= 12 && c.months.Contains(m) && d in c.dom.values && Reachable(c, c.Start(after), m, d);
      NextByDate(c, after, m, d);
    } else if Next(c, after).Some? {
      NextIsLeast(c, after);
      MatchIsReachable(c, after, Next(c, after).value);
    }
  }

  // ---- Agreement of the two searches ----

  /** The six-field schedule that fires at second 0 of each instant of a five-field one. */
  function AtSecondZero(c: CronSchedule): CronSchedule {
    c.(hasSeconds := true, seconds := Field(false, {0}))
  }

  lemma SameMatches(c: CronSchedule, t: Time)
    requires c.zone == UTC() && !c.hasSeconds
    ensures AtSecondZero(c).Matches(t) <==> t % MINUTE == 0 && c.Matches(t)
  {
    hide YearOf, DaysBefore, DaysBeforeYear, MonthFrom;
    MatchSplits(c, t);
    MatchSplits(AtSecondZero(c), t);
  }

  lemma AgreeWhenBothFire(c: CronSchedule, after: Time)
    requires c.zone == UTC() && !c.hasSeconds
    requires Next(c, after).Some? && Next(AtSecondZero(c), after).Some?
    ensures Next(c, after) == Next(AtSecondZero(c), after)
  {
    hide AddYear, Next;
    NextIsLeast(c, after);
    NextIsLeast(AtSecondZero(c), after);
    var byMinute, bySecond := Next(c, after).value, Next(AtSecondZero(c), after).value;
    SameMatches(c, byMinute);
    SameMatches(c, bySecond);
    assert byMinute <= bySecond ==> AtSecondZero(c).InWindow(after, byMinute);
    assert bySecond <= byMinute ==> c.InWindow(after, bySecond);
  }

  /** Only 29 February is ever selected. */
  ghost predicate OnlyLeapDay(c: CronSchedule) {
    && SelectsOnlyDates(c) && c.months.Contains(2) && 29 in c.dom.values
    && forall m, d :: 1 <= m <= 12 && c.months.Contains(m) && d in c.dom.values ==> d > DaysIn(m, false)
  }

  /** The next second is in the last minute of the 28 February before a leap year, past its first
      second: the minute search starts on 1 March, the second search still in February. */
  predicate LastMinuteBeforeLeapYear(after: Time) {
    var d := DateOf(DayOf(after + 1));
    && d.month == 2 && d.day == 28 && Leap(d.year + 1)
    && TimeOfDay(after + 1) > DAY - MINUTE
  }

  lemma RoundUp(day: int, r: int)
    requires 0 <= r < DAY
    ensures var t := DAY * day + r + MINUTE - 1;
      t - t % MINUTE == DAY * day + (r + MINUTE - 1) / MINUTE * MINUTE
  {
    var q, x := (r + MINUTE - 1) / MINUTE, (r + MINUTE - 1) % MINUTE;
    assert DAY * day + r + MINUTE - 1 == MINUTE * (1440 * day + q) + x;
  }

  /** From a second to the first minute boundary not before it, at the end of a day or within it. */
  lemma StartsCompared(c: CronSchedule, after: Time)
    requires !c.hasSeconds
    ensures AtSecondZero(c).Start(after) == after + 1
    ensures var r := TimeOfDay(after + 1);
      && (r > DAY - MINUTE ==> DayOf(c.Start(after)) == DayOf(after + 1) + 1 && TimeOfDay(c.Start(after)) == 0)
      && (r <= DAY - MINUTE ==>
            DayOf(c.Start(after)) == DayOf(after + 1)
            && TimeOfDay(c.Start(after)) == (r + MINUTE - 1) / MINUTE * MINUTE)
  {
    var day, r := DayOf(after + 1), TimeOfDay(after + 1);
    var up := (r + MINUTE - 1) / MINUTE * MINUTE;
    RoundUp(day, r);
    if r <= DAY - MINUTE {
      SplitInstant(day, up);
    } else {
      SplitInstant(day + 1, 0);
    }
  }

  lemma SameTimesLeft(c: CronSchedule, r: int)
    requires !c.hasSeconds && 0 <= r
    ensures (exists s :: r <= s < DAY && TimeOk(AtSecondZero(c), s))
      <==> exists s :: (r + MINUTE - 1) / MINUTE * MINUTE <= s < DAY && TimeOk(c, s)
  {
    forall s | 0 <= s < DAY
      ensures TimeOk(AtSecondZero(c), s) <==> TimeOk(c, s)
      ensures TimeOk(c, s) ==> (r <= s <==> (r + MINUTE - 1) / MINUTE * MINUTE <= s)
    {
      assert s % MINUTE == 0 ==> s == s / MINUTE * MINUTE;
    }
  }

  lemma LeapDayAheadSameDay(c: CronSchedule, after: Time)
    requires !c.hasSeconds && TimeOfDay(after + 1) <= DAY - MINUTE
    ensures LeapDayAhead(AtSecondZero(c), after + 1) == LeapDayAhead(c, c.Start(after))
  {
    hide DateOf, TimeOk, CronSchedule.Start, Leap;
    StartsCompared(c, after);
    SameTimesLeft(c, TimeOfDay(after + 1));
  }

  lemma LeapDayAheadNextDay(c: CronSchedule, after: Time)
    requires c.WellFormed() && !c.hasSeconds && TimeOfDay(after + 1) > DAY - MINUTE
    ensures LeapDayAhead(AtSecondZero(c), after + 1) ==> LeapDayAhead(c, c.Start(after))
    ensures LeapDayAhead(c, c.Start(after)) && !LeapDayAhead(AtSecondZero(c), after + 1)
      <==> LastMinuteBeforeLeapYear(after)
  {
    hide DateOf, TimeOk, CronSchedule.Start, CronSchedule.WellFormed, Leap, DayNumber;
    var d := DateOf(DayOf(after + 1));
    StartsCompared(c, after);
    DatesAreConsecutive(DayOf(after + 1));
    DateOfIsInverse(DayOf(after + 1));
    LeapYearsApart(d.year);
    SameTimesLeft(c, TimeOfDay(after + 1));
    var s := PickTime(c);
    assert (TimeOfDay(after + 1) + MINUTE - 1) / MINUTE * MINUTE == DAY;
  }

  lemma LeapDayAheadCompared(c: CronSchedule, after: Time)
    requires c.WellFormed() && !c.hasSeconds
    ensures LeapDayAhead(AtSecondZero(c), after + 1) ==> LeapDayAhead(c, c.Start(after))
    ensures LeapDayAhead(c, c.Start(after)) && !LeapDayAhead(AtSecondZero(c), after + 1)
      <==> LastMinuteBeforeLeapYear(after)
  {
    hide LeapDayAhead;
    if TimeOfDay(after + 1) > DAY - MINUTE {
      LeapDayAheadNextDay(c, after);
    } else {
      LeapDayAheadSameDay(c, after);
    }
  }

  /** In UTC, stepping by seconds and by minutes give the same next run, or the same absence of
      one, unless only 29 February is selected and the search starts in the last minute of a
      28 February just before a leap year. */
  lemma SearchesAgreeExactly(c: CronSchedule, after: Time)
    requires c.WellFormed() && c.zone == UTC() && !c.hasSeconds
    ensures Next(AtSecondZero(c), after) == Next(c, after) <==> !(OnlyLeapDay(c) && LastMinuteBeforeLeapYear(after))
    ensures Next(AtSecondZero(c), after) != Next(c, after) ==> Next(AtSecondZero(c), after) == None
  {
    hide Next, LeapDayAhead, LastMinuteBeforeLeapYear;
    NoNextRunExactly(c, after);
    NoNextRunExactly(AtSecondZero(c), after);
    LeapDayAheadCompared(c, after);
    if Next(c, after).Some? && Next(AtSecondZero(c), after).Some? {
      AgreeWhenBothFire(c, after);
    }
  }

  /** "0 0 29 2 *". */
  function LeapDayMidnight(): CronSchedule {
    CronSchedule("0 0 29 2 *", UTC(), false, Field(false, {}), Field(false, {0}), Field(false, {0}),
                 Field(false, {29}), Field(false, {2}), Field(true, {}))
  }

  /** The exception is real: ask for it at 23:59:10 on 28 February 2023. */
  lemma SearchesCanDisagree()
    ensures var after := DAY * DayNumber(Date(2023, 2, 28)) + DAY - 50;
      && LeapDayMidnight().WellFormed() && Next(LeapDayMidnight(), after).Some?
      && Next(AtSecondZero(LeapDayMidnight()), after) == None
  {
    hide Next, DayNumber, DateOf, AddYear;
    var day := DayNumber(Date(2023, 2, 28));
    DayNumberIsInverse(Date(2023, 2, 28));
    SplitInstant(day, DAY - 49);
    SearchesAgreeExactly(LeapDayMidnight(), DAY * day + DAY - 50);
  }
}
