/** From an accepted configuration to a reconcile and to registered jobs: what acceptance gives to each,
    and what it does not promise. */
module Pipeline {
  import opened Wrappers
  import opened Text
  import opened Calendar
  import opened CronFields
  import opened Cron
  import opened CronHorizon
  import opened Models
  import opened Validation
  import opened Reconciler
  import opened Scheduler

  /** The desired state a daemon builds from its configuration. */
  function StackOf(c: Config, configHash: string): Desired {
    Desired(c.name, c.services, c.jobs, c.triggers, configHash)
  }

  /** An accepted configuration gives a stack the reconciler accepts, with named services whose names
      are distinct. */
  lemma AcceptedStack(c: Config, lib: Library, configHash: string)
    requires Accepted(c, lib)
    ensures var d := StackOf(c, configHash);
      && StackFault(d, lib) == None && Distinct(ServiceNames(d.services))
      && forall s :: s in d.services ==> s.name != ""
  {
    hide ServiceFault, JobFault, TriggerFault, Distinct, ImageFault;
    NoFault(c.services, s => ServiceFault(s, lib));
    NoFault(c.jobs, j => JobFault(j, lib));
    NoFault(c.triggers, TriggerFault);
    ServiceNamesAreSet(StackOf(c, configHash), lib);
  }

  // ---- Accepted schedules the scheduler refuses ----

  /** A job that passed validation is refused by the scheduler exactly when its time zone is unknown,
      one of its fields does not parse, or its schedule has no next run within the horizon. */
  lemma RefusedExactly(j: Job, lib: Library, zones: map<string, Zone>, readAt: Time)
    requires JobFault(j, lib) == None && j.schedule.Some?
    ensures var spec := j.schedule.value; var texts := Fields(spec.cron);
      && (|texts| == 5 || |texts| == 6)
      && (!Registrable(j, zones, readAt) <==>
            || !ZoneKnown(spec, zones)
            || (exists i :: 0 <= i < |texts| && !FieldBounds(|texts|)[i].Accepts(texts[i]))
            || (Readable(spec, zones) && Next(Cron.Meaning(spec, zones), readAt) == None))
  {
    hide Fields, TrimSpace, Next, Cron.Meaning, Bounds.Accepts, ZoneKnown;
    FieldsOfTrim(j.schedule.value.cron);
    AcceptedSchedule(j, lib);
  }

  /** In UTC the last is a matter of dates alone. */
  lemma NoRunExactly(spec: ScheduleSpec, zones: map<string, Zone>, readAt: Time)
    requires Readable(spec, zones) && Blank(spec.timezone)
    ensures Next(Cron.Meaning(spec, zones), readAt) == None
      <==> NothingReachable(Cron.Meaning(spec, zones), readAt)
  {
    hide Fields, TrimSpace, Next, Bounds.Accepts, NothingReachable, CronSchedule.WellFormed;
    Cron.MeaningIsWellFormed(spec, zones);
    NoNextRunExactly(Cron.Meaning(spec, zones), readAt);
  }

  // ---- Two such schedules ----

  function Written5(minute: nat, hour: nat, day: nat, month: nat): ScheduleSpec {
    ScheduleSpec(Join([Itoa(minute), Itoa(hour), Itoa(day), Itoa(month), "*"], ' '), "")
  }

  lemma WordsOf5(minute: nat, hour: nat, day: nat, month: nat)
    ensures var spec := Written5(minute, hour, day, month);
      && Fields(spec.cron) == [Itoa(minute), Itoa(hour), Itoa(day), Itoa(month), "*"]
      && ScheduleFault(spec.cron) == None && Blank(spec.timezone)
  {
    hide Itoa, Fields;
    var words := [Itoa(minute), Itoa(hour), Itoa(day), Itoa(month), "*"];
    forall w | w in words
      ensures Word(w)
    {
      assert forall c :: IsDigit(c) ==> !IsSpace(c);
    }
    FieldsOfJoin(words);
    StartsBlankless(Join(words, ' '));
  }

  /** One written value: what the field accepts and means. */
  lemma OneValue(b: Bounds, n: nat)
    requires n <= MAX_INT64
    ensures b.Accepts(Itoa(n)) <==> b.Admits(n)
    ensures b.Meaning(Itoa(n)) == Field(false, {b.Fold(n)})
  {
    hide Itoa, Bounds.Accepts, Bounds.Meaning;
    var ss := [Single(n)];
    assert RenderList(ss) == Itoa(n);
    RenderedListMeans(b, ss);
    assert Single(n) in ss;
    assert b.Denoted(Single(n)) == {b.Fold(n)};
    var values := b.Meaning(Itoa(n)).values;
    forall v
      ensures v in values <==> v == b.Fold(n)
    {
      assert v in values <==> exists s :: s in ss && v in b.Denoted(s);
      assert v == b.Fold(n) ==> ss[0] in ss && v in b.Denoted(ss[0]);
    }
    assert values == {b.Fold(n)};
    assert b.Fits(Single(n)) <==> b.Admits(n);
  }

  /** "61 0 1 1 *" passes validation and never registers, whatever the zones and the time. */
  lemma BadMinutePasses(zones: map<string, Zone>, j: Job, readAt: Time)
    requires j.schedule == Some(Written5(61, 0, 1, 1))
    ensures ScheduleFault(j.schedule.value.cron) == None && !Registrable(j, zones, readAt)
  {
    hide Fields, Bounds.Accepts, Next, Cron.Meaning, TrimSpace, Itoa;
    WordsOf5(61, 0, 1, 1);
    FieldsOfTrim(j.schedule.value.cron);
    OneValue(MINUTES, 61);
  }

  /** "0 0 30 2 *" passes validation, parses, and never registers either. */
  lemma NoSuchDatePasses(zones: map<string, Zone>, j: Job, readAt: Time)
    requires j.schedule == Some(Written5(0, 0, 30, 2))
    ensures ScheduleFault(j.schedule.value.cron) == None && Readable(j.schedule.value, zones)
    ensures !Registrable(j, zones, readAt)
  {
    hide Fields, Bounds.Accepts, Bounds.Meaning, Next, TrimSpace, Itoa;
    var spec := j.schedule.value;
    WordsOf5(0, 0, 30, 2);
    FieldsOfTrim(spec.cron);
    OneValue(MINUTES, 0);
    OneValue(HOURS, 0);
    OneValue(DAYS_OF_MONTH, 30);
    OneValue(MONTHS, 2);
    LoneAsterisk(DAYS_OF_WEEK);
    NoRunExactly(spec, zones, readAt);
    var c := Cron.Meaning(spec, zones);
    assert c.dow.any && c.dom == Field(false, {30}) && c.months == Field(false, {2});
    assert NothingReachable(c, readAt);
  }

  lemma LoneAsterisk(b: Bounds)
    ensures b.Accepts("*") && b.Meaning("*") == Field(true, {})
  {
    assert TrimSpace("*") == "*";
  }

  // ---- What written schedules mean ----

  /** Putting a zero in front of five fields is the same schedule at second 0. */
  lemma LeadingZero(five: seq<string>, timezone: string, zones: map<string, Zone>)
    requires |five| == 5 && forall w :: w in five ==> Word(w)
    ensures var s5, s6 := ScheduleSpec(Join(five, ' '), timezone), ScheduleSpec(Join(["0"] + five, ' '), timezone);
      && (Readable(s6, zones) <==> Readable(s5, zones))
      && (Readable(s5, zones) ==>
            Cron.Meaning(s6, zones) == AtSecondZero(Cron.Meaning(s5, zones)).(spec := Join(["0"] + five, ' ')))
  {
    hide Fields, TrimSpace, Bounds.Accepts, Bounds.Meaning, Join;
    var six := ["0"] + five;
    assert Itoa(0) == "0" && six[1..] == five && forall w :: w in six ==> Word(w);
    FieldsOfJoin(five);
    FieldsOfJoin(six);
    FieldsOfTrim(Join(five, ' '));
    FieldsOfTrim(Join(six, ' '));
    StartsBlankless(Join(five, ' '));
    StartsBlankless(Join(six, ' '));
    JoinOfWordsTrims(six);
    OneValue(SECONDS, 0);
    forall i | 0 <= i < 5
      ensures FieldBounds(6)[i + 1] == FieldBounds(5)[i] && six[i + 1] == five[i]
    {
    }
    var s5, s6 := ScheduleSpec(Join(five, ' '), timezone), ScheduleSpec(Join(six, ' '), timezone);
    if Readable(s5, zones) {
      forall i | 0 <= i < 6
        ensures FieldBounds(6)[i].Accepts(six[i])
      {
        assert i > 0 ==> six[i] == five[i - 1];
      }
    }
    if Readable(s6, zones) {
      forall i | 0 <= i < 5
        ensures FieldBounds(5)[i].Accepts(five[i])
      {
        assert FieldBounds(6)[i + 1].Accepts(six[i + 1]);
      }
    }
  }

  predicate ListWritable(ss: seq<Segment>) {
    ss != [] && forall s :: s in ss ==> Writable(s)
  }

  /** A list written as text says exactly what its segments say. */
  lemma RenderedSays(ss: seq<Segment>, min: int, max: int, v: int)
    requires ListWritable(ss)
    ensures Says(RenderList(ss), min, max, v) <==> exists s :: s in ss && InSegment(s, min, max, v)
    ensures TrimSpace(RenderList(ss)) != "*" && Word(RenderList(ss))
  {
    hide RenderList, Writable, Says, InSegment, Bounds.Denoted, Bounds.Accepts;
    var b := Bounds(min, max, false);
    RenderedListMeans(b, ss);
    FieldSays(b, RenderList(ss), v);
    forall s | s in ss
      ensures s.Every? ==> s.step > 0
    {
      WritableSteps(s);
    }
    forall s | s in ss
      ensures v in b.Denoted(s) <==> InSegment(s, min, max, v)
    {
      DenotedExactly(b, s, v);
    }
    RenderListIsWord(ss);
    Cron.LoneAsterisk(b, RenderList(ss));
  }

  lemma WritableSteps(s: Segment)
    requires Writable(s)
    ensures s.Every? ==> s.step > 0
  {
  }

  lemma RenderListIsWord(ss: seq<Segment>)
    requires ListWritable(ss)
    ensures Word(RenderList(ss))
  {
    hide Render, Join;
    var parts := seq(|ss|, i requires 0 <= i < |ss| => Render(ss[i]));
    forall p | p in parts
      ensures Plain(p)
    {
      var i :| 0 <= i < |parts| && parts[i] == p;
      RenderIsPlain(ss[i]);
    }
    JoinIsPlain(parts);
    assert parts[0] in parts;
    JoinIsLong(parts);
  }

  lemma JoinIsLong(parts: seq<string>)
    requires parts != [] && parts[0] != ""
    ensures Join(parts, ',') != ""
  {
  }

  function WrittenSpec(lists: seq<seq<Segment>>, timezone: string): ScheduleSpec
    requires lists != [] && forall i :: 0 <= i < |lists| ==> ListWritable(lists[i])
  {
    ScheduleSpec(
      Join(seq(|lists|, i requires 0 <= i < |lists| && ListWritable(lists[i]) => RenderList(lists[i])), ' '), timezone)
  }

  ghost predicate ListSays(ss: seq<Segment>, min: int, max: int, v: int) {
    exists s :: s in ss && InSegment(s, min, max, v)
  }

  /** A schedule written as lists of segments, seconds first when there are six, matches an instant
      exactly when the zone's clock then shows a listed second, minute, hour and month, and a listed day
      of the month or weekday, Sunday being 0 or 7. */
  lemma WrittenMatches(lists: seq<seq<Segment>>, timezone: string, zones: map<string, Zone>, t: Time)
    requires |lists| == 5 || |lists| == 6
    requires forall i :: 0 <= i < |lists| ==> ListWritable(lists[i])
    requires Readable(WrittenSpec(lists, timezone), zones)
    ensures var local := LocalTime(WrittenSpec(lists, timezone), zones, t);
      var k, date, r := |lists| - 5, DateOf(local / 86400), local % 86400;
      var weekday := (local / 86400 + 1) % 7;
      Cron.Meaning(WrittenSpec(lists, timezone), zones).Matches(t) <==>
        && (k == 1 ==> ListSays(lists[0], 0, 59, r % 60))
        && ListSays(lists[k], 0, 59, r / 60 % 60) && ListSays(lists[k + 1], 0, 23, r / 3600)
        && ListSays(lists[k + 3], 1, 12, date.month)
        && (|| ListSays(lists[k + 2], 1, 31, date.day)
            || ListSays(lists[k + 4], 0, 7, weekday)
            || (weekday == 0 && ListSays(lists[k + 4], 0, 7, 7)))
  {
    hide Fields, TrimSpace, Join, RenderList, Says, InSegment, Bounds.Accepts, DateOf, Cron.Meaning,
      CronSchedule.Matches, LocalTime, Word, Readable;
    var spec := WrittenSpec(lists, timezone);
    var words := seq(|lists|, i requires 0 <= i < |lists| && ListWritable(lists[i]) => RenderList(lists[i]));
    forall i, min, max, v | 0 <= i < |lists|
      ensures Says(words[i], min, max, v) <==> ListSays(lists[i], min, max, v)
      ensures TrimSpace(words[i]) != "*" && Word(words[i])
    {
      RenderedSays(lists[i], min, max, v);
    }
    forall i | 0 <= i < |lists|
      ensures Word(words[i])
    {
      RenderedSays(lists[i], 0, 0, 0);
    }
    FieldsOfJoin(words);
    FieldsOfTrim(spec.cron);
    MeaningSays(spec, zones, t);
    hide ListSays;
  }
}
