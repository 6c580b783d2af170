/** Where the one-year search horizon and the scheduler meet: jobs whose schedule runs dry. */
module Dormancy {
  import opened Wrappers
  import opened Calendar
  import opened Cron
  import opened CronHorizon
  import opened SchedulerModel

  /** In UTC an object goes inactive, for good, exactly when its schedule selects by date only and
      none of its dates exists in the year after its last run. */
  lemma DormantExactly(states: seq<State>, events: seq<SchedulerModel.Event>, k: nat, i: nat)
    requires IsRun(states, events) && k < |states| && i < |states[k].jobs|
    requires states[k].jobs[i].schedule.WellFormed() && states[k].jobs[i].schedule.zone == UTC()
    ensures var j := states[k].jobs[i];
      && (!j.active <==> !j.running && NothingReachable(j.schedule, j.SearchedFrom(|j.firings|)))
      && (!j.active ==> forall m :: k <= m < |states| ==> i < |states[m].jobs| && states[m].jobs[i] == j)
  {
    hide IsRun, Next, NothingReachable;
    var j := states[k].jobs[i];
    InactiveExactly(states, events, k, i);
    NoNextRunExactly(j.schedule, j.SearchedFrom(|j.firings|));
    if !j.active {
      forall m | k <= m < |states|
        ensures i < |states[m].jobs| && states[m].jobs[i] == j
      {
        InactiveStays(states, events, k, m, i);
      }
    }
  }

  lemma LeapYearsFourApart(y: int)
    requires Leap(y)
    ensures !Leap(y + 1) && !Leap(y + 2) && !Leap(y + 3)
  {
  }

  /** A leap day's first instant is the only one at midnight. */
  lemma MidnightOnly(s: int)
    requires 0 <= s < DAY && TimeOk(LeapDayMidnight(), s)
    ensures s == 0
  {
    assert s == s / HOUR * HOUR + s % HOUR / MINUTE * MINUTE + s % MINUTE;
  }

  lemma MatchIsLeapDay(t: Time)
    requires LeapDayMidnight().OnBoundary(t) && LeapDayMidnight().Matches(t)
    ensures TimeOfDay(t) == 0 && ValidDate(DateOf(DayOf(t)))
    ensures DateOf(DayOf(t)) == Date(DateOf(DayOf(t)).year, 2, 29) && Leap(DateOf(DayOf(t)).year)
  {
    hide DateOf, TimeOk, DayNumber;
    MatchSplits(LeapDayMidnight(), t);
    DateOfIsInverse(DayOf(t));
    MidnightOnly(TimeOfDay(t));
  }

  /** After a leap day's midnight there is no other within the year, unless that year reaches the
      next leap year. */
  lemma NoLeapDaySoon(slot: Time, after: Time)
    requires LeapDayMidnight().OnBoundary(slot) && LeapDayMidnight().Matches(slot) && slot <= after
    requires DateOf(DayOf(after)).year <= DateOf(DayOf(slot)).year + 2
    ensures Next(LeapDayMidnight(), after) == None
  {
    hide DateOf, TimeOk, DayNumber, Next, CronSchedule.Start, CronSchedule.Matches, CronSchedule.OnBoundary;
    var c := LeapDayMidnight();
    var start := c.Start(after);
    MatchIsLeapDay(slot);
    var y := DateOf(DayOf(slot)).year;
    StartDate(after);
    LeapYearsFourApart(y);
    NoNextRunExactly(c, after);
    var d := DateOf(DayOf(start));
    DateOfIsInverse(DayOf(slot));
    DateOfIsInverse(DayOf(start));
    DatesInOrder(d, Date(y, 2, 29));
    if d.month == 2 && d.day == 29 && d.year == y {
      assert DayOf(start) == DayOf(slot);
      assert TimeOfDay(start) > 0;
      forall s | TimeOfDay(start) <= s < DAY
        ensures !TimeOk(c, s)
      {
        if TimeOk(c, s) {
          MidnightOnly(s);
        }
      }
    }
    assert !LeapDayAhead(c, start);
  }

  /** The next minute is in the same year, or is the first of the next. */
  lemma StartDate(after: Time)
    ensures var start := LeapDayMidnight().Start(after);
      && after < start
      && (DateOf(DayOf(start)).year <= DateOf(DayOf(after)).year
          || DateOf(DayOf(start)) == Date(DateOf(DayOf(after)).year + 1, 1, 1))
  {
    hide DateOf;
    var start := LeapDayMidnight().Start(after);
    StartIsFirstBoundary(LeapDayMidnight(), after);
    DatesAreConsecutive(DayOf(after));
    assert DayOf(start) == DayOf(after) || DayOf(start) == DayOf(after) + 1;
  }

  /** "0 0 29 2 *" runs once and never again, unless that run lasts into the third year after. */
  lemma LeapDayJobRunsOnce(states: seq<State>, events: seq<SchedulerModel.Event>, k: nat, i: nat)
    requires IsRun(states, events) && k < |states| && i < |states[k].jobs|
    requires var j := states[k].jobs[i];
      && j.schedule == LeapDayMidnight() && j.firings != [] && j.firings[0].finishedAt.Some?
      && DateOf(DayOf(j.firings[0].finishedAt.value)).year <= DateOf(DayOf(j.firings[0].slot)).year + 2
    ensures var j := states[k].jobs[i];
      && |j.firings| == 1 && !j.active
      && forall m :: k <= m < |states| ==> i < |states[m].jobs| && states[m].jobs[i] == j
  {
    hide IsRun, Next, DateOf, CronSchedule.Matches, CronSchedule.OnBoundary, NothingReachable;
    var j := states[k].jobs[i];
    RunsAreSafe(states, events, k);
    assert JobOk(j, states[k].inFlight[i], states[k].now);
    hide Inv;
    assert FiringOk(j, 0);
    SlotsAreLeastMatches(j, states[k].inFlight[i], states[k].now, 0);
    NoLeapDaySoon(j.firings[0].slot, j.firings[0].finishedAt.value);
    assert |j.firings| > 1 ==> FiringOk(j, 1);
    DormantExactly(states, events, k, i);
  }
}
