/** Cron schedules: parsing, matching an instant, and the bounded search for the next match. */
module Cron {
  import opened Wrappers
  import opened Text
  import opened Calendar
  import opened CronFields

  /** A time zone: its offset from UTC at an instant, and where `AddDate(1, 0, 0)` lands. */
  datatype Zone = Zone(offset: Time -> int, yearLater: Time -> Time)

  function UTC(): Zone {
    Zone(_ => 0, AddYear)
  }

  datatype ScheduleSpec = ScheduleSpec(cron: string, timezone: string)

  datatype ScheduleError = NoCron | UnknownZone | FieldCount(n: nat) | BadField(index: nat, cause: CronError)

  datatype CronSchedule = CronSchedule(
      spec: string, zone: Zone, hasSeconds: bool,
      seconds: Field, minutes: Field, hours: Field, dom: Field, months: Field, dow: Field) {

    /** What every parsed schedule satisfies. */
    predicate WellFormed() {
      && (hasSeconds ==> seconds.WellFormed(0, 59))
      && minutes.WellFormed(0, 59) && hours.WellFormed(0, 23) && dom.WellFormed(1, 31)
      && months.WellFormed(1, 12) && dow.WellFormed(0, 6)
    }

    function Step(): int {
      if hasSeconds then 1 else MINUTE
    }

    /** `Truncate` to the step of the search leaves these instants as they are. */
    predicate OnBoundary(t: Time) {
      hasSeconds || t % MINUTE == 0
    }

    /** First candidate of the search: one step on, truncated to a step. */
    function Start(after: Time): Time {
      if hasSeconds then after + 1 else after + MINUTE - (after + MINUTE) % MINUTE
    }

    function Limit(after: Time): Time {
      zone.yearLater(Start(after))
    }

    function Local(t: Time): Clock {
      ClockAt(t + zone.offset(t))
    }

    predicate Matches(t: Time) {
      var k := Local(t);
      && months.Contains(k.month) && hours.Contains(k.hour) && minutes.Contains(k.minute)
      && (hasSeconds ==> seconds.Contains(k.second))
      && MatchesDay(dom, dow, k)
    }

    // ---- What the next run is, without searching ----

    /** Boundaries the search may return: strictly after `after`, before the year limit. */
    predicate InWindow(after: Time, t: Time) {
      OnBoundary(t) && after < t < Limit(after)
    }

    ghost predicate IsNext(after: Time, r: Option<Time>) {
      match r
      case None => forall t :: InWindow(after, t) ==> !Matches(t)
      case Some(t) => InWindow(after, t) && Matches(t) && forall u :: InWindow(after, u) && Matches(u) ==> t <= u
    }
  }

  predicate MatchesDay(dom: Field, dow: Field, k: Clock) {
    var domMatch := dom.Contains(k.day);
    var dowMatch := dow.Contains(k.weekday) || (k.weekday == 0 && dow.Contains(7));
    if dom.any && dow.any then true
    else if dom.any then dowMatch
    else if dow.any then domMatch
    else domMatch || dowMatch
  }

  /** The rule of the crontab utility (IEEE Std 1003.1, crontab, EXTENDED DESCRIPTION): both day
      fields restricted, either may match; otherwise both must. A parsed day-of-week never holds
      7, so the code's second test for Sunday adds nothing. */
  lemma DayRule(c: CronSchedule, k: Clock)
    requires c.WellFormed() && 0 <= k.weekday <= 6
    ensures MatchesDay(c.dom, c.dow, k) <==>
      if c.dom.any || c.dow.any then c.dom.Contains(k.day) && c.dow.Contains(k.weekday)
      else c.dom.Contains(k.day) || c.dow.Contains(k.weekday)
  {
  }

  // ---- Parsing ----

  /** Bounds of the fields in order; six-field expressions put seconds first. */
  function FieldBounds(n: nat): seq<Bounds> {
    (if n == 6 then [SECONDS] else []) + [MINUTES, HOURS, DAYS_OF_MONTH, MONTHS, DAYS_OF_WEEK]
  }

  predicate ZoneKnown(s: ScheduleSpec, zones: map<string, Zone>) {
    Blank(s.timezone) || s.timezone in zones
  }

  ghost predicate Readable(s: ScheduleSpec, zones: map<string, Zone>) {
    var texts := Fields(TrimSpace(s.cron));
    && !Blank(s.cron) && ZoneKnown(s, zones) && (|texts| == 5 || |texts| == 6)
    && forall i :: 0 <= i < |texts| ==> FieldBounds(|texts|)[i].Accepts(texts[i])
  }

  /** A schedule that says what the text says. */
  ghost function Meaning(s: ScheduleSpec, zones: map<string, Zone>): CronSchedule
    requires Readable(s, zones)
  {
    var texts := Fields(TrimSpace(s.cron));
    var at := seq(|texts|, i requires 0 <= i < |texts| => FieldBounds(|texts|)[i].Meaning(texts[i]));
    var k := |texts| - 5;
    CronSchedule(
      TrimSpace(s.cron), if Blank(s.timezone) then UTC() else zones[s.timezone], k == 1,
      if k == 1 then at[0] else Field(false, {}), at[k], at[k + 1], at[k + 2], at[k + 3], at[k + 4])
  }

  lemma MeaningIsWellFormed(s: ScheduleSpec, zones: map<string, Zone>)
    requires Readable(s, zones)
    ensures Meaning(s, zones).WellFormed()
  {
    hide TrimLeft, TrimRight, Split, ReadSegment, Fields;
    var texts := Fields(TrimSpace(s.cron));
    forall i | 0 <= i < |texts|
      ensures var b := FieldBounds(|texts|)[i];
        b.Meaning(texts[i]).WellFormed(b.min, b.max) && (b.sundaySeven ==> 7 !in b.Meaning(texts[i]).values)
    {
      CronFields.MeaningIsWellFormed(FieldBounds(|texts|)[i], texts[i]);
    }
  }

  // ---- What a specification says, from its text and the clock alone ----

  /** Five fields, or six with seconds in front, each inside its own bounds. */
  ghost predicate FieldsOk(texts: seq<string>) {
    var k := |texts| - 5;
    && (k == 0 || k == 1) && (k == 1 ==> FieldOk(texts[0], 0, 59))
    && FieldOk(texts[k], 0, 59) && FieldOk(texts[k + 1], 0, 23) && FieldOk(texts[k + 2], 1, 31)
    && FieldOk(texts[k + 3], 1, 12) && FieldOk(texts[k + 4], 0, 7)
  }

  /** Readable, field by field. */
  lemma ReadableExactly(s: ScheduleSpec, zones: map<string, Zone>)
    ensures Readable(s, zones) <==>
      && TrimSpace(s.cron) != "" && (TrimSpace(s.timezone) == "" || s.timezone in zones)
      && FieldsOk(Fields(TrimSpace(s.cron)))
  {
    hide Fields, TrimSpace, FieldOk, Bounds.Accepts;
    var texts := Fields(TrimSpace(s.cron));
    if |texts| == 5 || |texts| == 6 {
      forall i | 0 <= i < |texts|
        ensures var b := FieldBounds(|texts|)[i]; b.Accepts(texts[i]) <==> FieldOk(texts[i], b.min, b.max)
      {
        AcceptsExactly(FieldBounds(|texts|)[i], texts[i]);
      }
      var bounds, k := FieldBounds(|texts|), |texts| - 5;
      assert bounds[k] == MINUTES && bounds[k + 1] == HOURS && bounds[k + 2] == DAYS_OF_MONTH;
      assert bounds[k + 3] == MONTHS && bounds[k + 4] == DAYS_OF_WEEK && (k == 1 ==> bounds[0] == SECONDS);
    }
  }

  /** The texts name the local second, minute, hour, day, month and weekday of an instant. */
  ghost predicate TextsMatch(texts: seq<string>, local: Time)
    requires |texts| == 5 || |texts| == 6
  {
    var k, day, r := |texts| - 5, local / 86400, local % 86400;
    var date, weekday := DateOf(day), (day + 1) % 7;
    && (k == 1 ==> Says(texts[0], 0, 59, r % 60))
    && Says(texts[k], 0, 59, r / 60 % 60) && Says(texts[k + 1], 0, 23, r / 3600)
    && Says(texts[k + 3], 1, 12, date.month)
    && (if TrimSpace(texts[k + 2]) == "*" || TrimSpace(texts[k + 4]) == "*"
        then Says(texts[k + 2], 1, 31, date.day) && SaysWeekday(texts[k + 4], weekday)
        else Says(texts[k + 2], 1, 31, date.day) || SaysWeekday(texts[k + 4], weekday))
  }

  /** An instant in UTC to the clock of the named zone, UTC when none is named. */
  function LocalTime(s: ScheduleSpec, zones: map<string, Zone>, t: Time): Time
    requires TrimSpace(s.timezone) == "" || s.timezone in zones
  {
    t + if TrimSpace(s.timezone) == "" then 0 else zones[s.timezone].offset(t)
  }

  lemma ClockParts(t: Time)
    ensures var k := ClockAt(t); var r := t % 86400;
      && k.second == r % 60 && k.minute == r / 60 % 60 && k.hour == r / 3600
      && k.month == DateOf(t / 86400).month && k.day == DateOf(t / 86400).day && k.weekday == (t / 86400 + 1) % 7
  {
    hide DateOf;
    var r := t % 86400;
    assert t == 60 * (1440 * (t / 86400) + r / 60) + r % 60;
    assert r / 60 == 60 * (r / 3600) + r % 3600 / 60;
  }

  /** The parsed schedule matches exactly the instants its texts name on the zone's clock. */
  lemma MeaningSays(s: ScheduleSpec, zones: map<string, Zone>, t: Time)
    requires Readable(s, zones)
    ensures Meaning(s, zones).Matches(t) <==> TextsMatch(Fields(TrimSpace(s.cron)), LocalTime(s, zones, t))
  {
    hide Fields, TrimSpace, Says, Bounds.Accepts, Bounds.Meaning, DateOf;
    var texts, local := Fields(TrimSpace(s.cron)), LocalTime(s, zones, t);
    var c, clock := Meaning(s, zones), ClockAt(local);
    var k := |texts| - 5;
    ClockParts(local);
    MeaningIsWellFormed(s, zones);
    DayRule(c, clock);
    FieldSays(MINUTES, texts[k], clock.minute);
    FieldSays(HOURS, texts[k + 1], clock.hour);
    FieldSays(DAYS_OF_MONTH, texts[k + 2], clock.day);
    FieldSays(MONTHS, texts[k + 3], clock.month);
    FieldSays(DAYS_OF_WEEK, texts[k + 4], clock.weekday);
    if k == 1 {
      FieldSays(SECONDS, texts[0], clock.second);
    }
    LoneAsterisk(DAYS_OF_MONTH, texts[k + 2]);
    LoneAsterisk(DAYS_OF_WEEK, texts[k + 4]);
    hide ClockAt;
    assert c.Local(t) == clock;
  }

  lemma LoneAsterisk(b: Bounds, text: string)
    ensures b.Meaning(text).any <==> TrimSpace(text) == "*"
  {
  }

  /** Accepts exactly the readable specifications and returns their meaning: a schedule that matches
      exactly the instants the texts name. */
  method ParseSchedule(s: ScheduleSpec, zones: map<string, Zone>) returns (r: Result<CronSchedule, ScheduleError>)
    ensures r.Ok? <==>
      && TrimSpace(s.cron) != "" && (TrimSpace(s.timezone) == "" || s.timezone in zones)
      && FieldsOk(Fields(TrimSpace(s.cron)))
    ensures r.Ok? ==> forall t :: r.value.Matches(t) <==> TextsMatch(Fields(TrimSpace(s.cron)), LocalTime(s, zones, t))
    ensures r.Ok? ==> r.value.hasSeconds == (|Fields(TrimSpace(s.cron))| == 6) && r.value.spec == TrimSpace(s.cron)
    ensures r.Ok? ==> r.value.zone == if TrimSpace(s.timezone) == "" then UTC() else zones[s.timezone]
    ensures r.Ok? <==> Readable(s, zones)
    ensures r.Ok? ==> r.value == Meaning(s, zones) && r.value.WellFormed()
    ensures r == Err(NoCron) <==> Blank(s.cron)
    ensures r == Err(UnknownZone) <==> !Blank(s.cron) && !ZoneKnown(s, zones)
  {
    hide TrimLeft, TrimRight, Split, ReadSegment, Fields, FieldsOk, TextsMatch, CronSchedule.Matches, FieldOk;
    ReadableExactly(s, zones);
    var spec := TrimSpace(s.cron);
    if spec == "" {
      return Err(NoCron);
    }
    var zone := UTC();
    if !Blank(s.timezone) {
      if s.timezone !in zones {
        return Err(UnknownZone);
      }
      zone := zones[s.timezone];
    }
    var texts := Fields(spec);
    if |texts| != 5 && |texts| != 6 {
      return Err(FieldCount(|texts|));
    }
    var bounds := FieldBounds(|texts|);
    var at: seq<Field> := [];
    for i := 0 to |texts|
      invariant |at| == i
      invariant forall j :: 0 <= j < i ==> bounds[j].Accepts(texts[j]) && at[j] == bounds[j].Meaning(texts[j])
    {
      var field := ParseField(texts[i], bounds[i]);
      if field.Err? {
        return Err(BadField(i, field.error));
      }
      at := at + [field.value];
    }
    MeaningIsWellFormed(s, zones);
    forall t
      ensures Meaning(s, zones).Matches(t) <==> TextsMatch(Fields(TrimSpace(s.cron)), LocalTime(s, zones, t))
    {
      MeaningSays(s, zones, t);
    }
    var k := |texts| - 5;
    return Ok(CronSchedule(
      spec, zone, k == 1, if k == 1 then at[0] else Field(false, {}),
      at[k], at[k + 1], at[k + 2], at[k + 3], at[k + 4]));
  }

  // ---- The search ----

  /** First match from `t` on, in steps, before the limit. */
  function Search(c: CronSchedule, t: Time, limit: Time): (r: Option<Time>)
    decreases limit - t
  {
    if t >= limit then None else if c.Matches(t) then Some(t) else Search(c, t + c.Step(), limit)
  }

  /** The run after an instant, or None where Go returns the zero time. */
  function Next(c: CronSchedule, after: Time): Option<Time> {
    Search(c, c.Start(after), c.Limit(after))
  }

  method FindNext(c: CronSchedule, after: Time) returns (r: Option<Time>)
    ensures r == Next(c, after)
    ensures c.IsNext(after, r)
  {
    hide ClockAt, MatchesDay;
    var t := c.Start(after);
    var limit := c.Limit(after);
    NextIsLeast(c, after);
    while t < limit
      invariant Search(c, t, limit) == Next(c, after)
      decreases limit - t
    {
      if c.Matches(t) {
        return Some(t);
      }
      t := t + c.Step();
    }
    return None;
  }

  /** The start is the first boundary strictly after the given instant. */
  lemma StartIsFirstBoundary(c: CronSchedule, after: Time)
    ensures c.OnBoundary(c.Start(after))
    ensures after < c.Start(after) <= after + c.Step()
    ensures forall t :: c.OnBoundary(t) && after < t ==> c.Start(after) <= t
  {
  }

  lemma {:induction false} SearchIsLeast(c: CronSchedule, t: Time, limit: Time)
    requires c.OnBoundary(t)
    ensures match Search(c, t, limit)
      case None => forall u :: t <= u < limit && c.OnBoundary(u) ==> !c.Matches(u)
      case Some(r) =>
        && t <= r < limit && c.OnBoundary(r) && c.Matches(r)
        && forall u :: t <= u < r && c.OnBoundary(u) ==> !c.Matches(u)
    decreases limit - t
  {
    hide ClockAt, MatchesDay;
    if t >= limit || c.Matches(t) {
    } else {
      SearchIsLeast(c, t + c.Step(), limit);
    }
  }

  /** `Next` is the least matching boundary in the window, and None exactly when there is none,
      in every time zone. */
  lemma NextIsLeast(c: CronSchedule, after: Time)
    ensures c.IsNext(after, Next(c, after))
  {
    hide ClockAt, MatchesDay, Search;
    StartIsFirstBoundary(c, after);
    SearchIsLeast(c, c.Start(after), c.Limit(after));
  }

  lemma NextIsLater(c: CronSchedule, after: Time)
    ensures Next(c, after).Some? ==> after < Next(c, after).value
  {
    hide Next, CronSchedule.Matches;
    NextIsLeast(c, after);
  }

  /** Nothing else meets that description. */
  lemma NextIsUnique(c: CronSchedule, after: Time, r: Option<Time>)
    requires c.IsNext(after, r)
    ensures r == Next(c, after)
  {
    hide Next, CronSchedule.Matches;
    NextIsLeast(c, after);
    var s := Next(c, after);
    if r.Some? && s.Some? {
      assert r.value <= s.value && s.value <= r.value;
    }
  }

  // ---- Time zones ----

  /** A schedule fires in a zone when the same fields in UTC match the zone's clock reading. */
  lemma ZoneShifts(c: CronSchedule, t: Time)
    ensures c.Matches(t) <==> c.(zone := UTC()).Matches(t + c.zone.offset(t))
  {
    hide ClockAt, MatchesDay;
  }

  /** A zone a fixed number of seconds ahead of UTC. */
  function FixedZone(ahead: int): Zone {
    Zone(_ => ahead, t => AddYear(t + ahead) - ahead)
  }

  lemma {:induction false} SearchShifts(c: CronSchedule, ahead: int, t: Time, limit: Time)
    requires c.zone == FixedZone(ahead)
    ensures Search(c.(zone := UTC()), t + ahead, limit + ahead)
      == match Search(c, t, limit) case None => None case Some(r) => Some(r + ahead)
    decreases limit - t
  {
    hide CronSchedule.Matches;
    ZoneShifts(c, t);
    if t >= limit || c.Matches(t) {
    } else {
      SearchShifts(c, ahead, t + c.Step(), limit);
    }
  }

  /** In such a zone the next run is, on the zone's clock, the next run of the same fields in UTC; the
      minute search needs the zone to be whole minutes ahead. */
  lemma NextInFixedZone(c: CronSchedule, ahead: int, after: Time)
    requires c.zone == FixedZone(ahead) && (c.hasSeconds || ahead % 60 == 0)
    ensures Next(c.(zone := UTC()), after + ahead)
      == match Next(c, after) case None => None case Some(t) => Some(t + ahead)
  {
    var u := c.(zone := UTC());
    hide AddYear, Search;
    assert ahead % 60 == 0 ==> (after + ahead + MINUTE) % MINUTE == (after + MINUTE) % MINUTE by {
      WholeMinutes(after + MINUTE, ahead);
    }
    assert u.Start(after + ahead) == c.Start(after) + ahead;
    assert u.Limit(after + ahead) == c.Limit(after) + ahead;
    SearchShifts(c, ahead, c.Start(after), c.Limit(after));
  }

  lemma WholeMinutes(t: Time, ahead: int)
    ensures ahead % 60 == 0 ==> (t + ahead) % 60 == t % 60
  {
    if ahead % 60 == 0 {
      assert ahead == 60 * (ahead / 60);
    }
  }

  // ---- Iterating ----

  /** The runs from `after` on, as long as there is a next one, at most `n` of them. */
  function Runs(c: CronSchedule, after: Time, n: nat): seq<Time>
    decreases n
  {
    if n == 0 || Next(c, after) == None then []
    else [Next(c, after).value] + Runs(c, Next(c, after).value, n - 1)
  }

  /** Iterating `Next` lists every matching boundary up to the last one reached, in order,
      without repeating or omitting one. */
  lemma {:induction false} RunsEnumerateMatches(c: CronSchedule, after: Time, n: nat)
    ensures var runs := Runs(c, after, n);
      && (forall i, j :: 0 <= i < j < |runs| ==> runs[i] < runs[j])
      && (runs != [] ==> forall t :: t in runs <==>
           after < t <= runs[|runs| - 1] && c.OnBoundary(t) && c.Matches(t))
      && (|runs| < n ==> Next(c, if runs == [] then after else runs[|runs| - 1]) == None)
    decreases n
  {
    hide ClockAt, MatchesDay, Search;
    if n == 0 || Next(c, after) == None {
    } else {
      var first := Next(c, after).value;
      var rest := Runs(c, first, n - 1);
      NextIsLeast(c, after);
      RunsEnumerateMatches(c, first, n - 1);
      forall j | 0 <= j < |rest|
        ensures first < rest[j]
      {
        assert rest[j] in rest;
      }
      forall t
        ensures t in [first] + rest <==>
          after < t <= ([first] + rest)[|rest|] && c.OnBoundary(t) && c.Matches(t)
      {
        if after < t < first && c.OnBoundary(t) {
          assert c.InWindow(after, t);
        }
      }
    }
  }
}
