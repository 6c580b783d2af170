/** The proleptic Gregorian calendar in UTC, as the scheduler's clock readings use it.
    Instants are whole seconds since 0001-01-01 00:00:00 UTC, the zero of Go's `time.Time`. */
module Calendar {
  type Time = int

  const MINUTE: int := 60
  const HOUR: int := 3600
  const DAY: int := 86400

  datatype Date = Date(year: int, month: int, day: int)

  datatype Clock = Clock(month: int, day: int, hour: int, minute: int, second: int, weekday: int)

  predicate Leap(y: int) {
    y % 4 == 0 && (y % 100 != 0 || y % 400 == 0)
  }

  function DaysIn(month: int, leap: bool): int {
    if month == 2 then (if leap then 29 else 28)
    else if month == 4 || month == 6 || month == 9 || month == 11 then 30
    else 31
  }

  /** Days of the year before the first of the month. */
  function DaysBefore(month: int, leap: bool): int {
    if month <= 1 then 0 else DaysBefore(month - 1, leap) + DaysIn(month - 1, leap)
  }

  /** Days before the first of January of the year. */
  function DaysBeforeYear(y: int): int {
    var p := y - 1;
    365 * p + p / 4 - p / 100 + p / 400
  }

  function YearLength(y: int): int {
    if Leap(y) then 366 else 365
  }

  predicate ValidDate(d: Date) {
    1 <= d.month <= 12 && 1 <= d.day <= DaysIn(d.month, Leap(d.year))
  }

  /** Day number of a date; a day past the end of its month spills into the next one, as Go
      normalises it. */
  function DayNumber(d: Date): int {
    DaysBeforeYear(d.year) + DaysBefore(d.month, Leap(d.year)) + d.day - 1
  }

  /** The year holding a day number, by 400-, 100-, 4- and 1-year cycles. */
  function YearOf(n: int): int {
    var n400, r400 := n / 146097, n % 146097;
    var n100 := if r400 / 36524 == 4 then 3 else r400 / 36524;
    var r100 := r400 - 36524 * n100;
    var n4, r4 := r100 / 1461, r100 % 1461;
    var n1 := if r4 / 365 == 4 then 3 else r4 / 365;
    400 * n400 + 100 * n100 + 4 * n4 + n1 + 1
  }

  function MonthFrom(yearDay: int, leap: bool, month: int): int
    requires 1 <= month <= 12
    decreases 12 - month
  {
    if month == 12 || yearDay < DaysBefore(month + 1, leap) then month
    else MonthFrom(yearDay, leap, month + 1)
  }

  function DateOf(n: int): Date {
    var y := YearOf(n);
    var yearDay := n - DaysBeforeYear(y);
    var m := MonthFrom(yearDay, Leap(y), 1);
    Date(y, m, yearDay - DaysBefore(m, Leap(y)) + 1)
  }

  /** 0 is Sunday; 0001-01-01 was a Monday. */
  function Weekday(n: int): int {
    (n + 1) % 7
  }

  function DayOf(t: Time): int {
    t / DAY
  }

  function TimeOfDay(t: Time): int {
    t % DAY
  }

  function ClockAt(t: Time): Clock {
    var d := DateOf(DayOf(t));
    Clock(d.month, d.day, TimeOfDay(t) / HOUR, TimeOfDay(t) % HOUR / MINUTE, t % MINUTE, Weekday(DayOf(t)))
  }

  /** `AddDate(1, 0, 0)` in UTC: same month, day and time of day one year on. */
  function AddYear(t: Time): Time {
    var d := DateOf(DayOf(t));
    DAY * DayNumber(d.(year := d.year + 1)) + TimeOfDay(t)
  }

  // ---- The calendar functions describe one calendar ----

  lemma DivSteps(p: int)
    ensures (p + 1) / 4 == p / 4 + (if (p + 1) % 4 == 0 then 1 else 0)
    ensures (p + 1) / 100 == p / 100 + (if (p + 1) % 100 == 0 then 1 else 0)
    ensures (p + 1) / 400 == p / 400 + (if (p + 1) % 400 == 0 then 1 else 0)
  {
  }

  lemma LeapNesting(y: int)
    ensures y % 100 == 0 ==> y % 4 == 0
    ensures y % 400 == 0 ==> y % 100 == 0
  {
    if y % 100 == 0 {
      assert y == 4 * (25 * (y / 100));
    }
    if y % 400 == 0 {
      assert y == 100 * (4 * (y / 400));
    }
  }

  lemma YearSpan(y: int)
    ensures DaysBeforeYear(y + 1) == DaysBeforeYear(y) + YearLength(y)
  {
    DivSteps(y - 1);
    LeapNesting(y);
  }

  lemma {:induction false} YearsMonotone(y: int, z: int)
    requires y <= z
    ensures DaysBeforeYear(y) + 365 * (z - y) <= DaysBeforeYear(z)
    decreases z - y
  {
    if y == z {
    } else {
      YearsMonotone(y, z - 1);
      YearSpan(z - 1);
    }
  }

  lemma CyclePosition(a: int, b: int, c: int, e: int)
    requires 0 <= b <= 3 && 0 <= c <= 24 && 0 <= e <= 3
    ensures DaysBeforeYear(400 * a + 100 * b + 4 * c + e + 1) == 146097 * a + 36524 * b + 1461 * c + 365 * e
  {
    var p := 400 * a + 100 * b + 4 * c + e;
    assert p / 4 == 100 * a + 25 * b + c;
    assert p / 100 == 4 * a + b;
    assert p / 400 == a;
  }

  lemma YearOfBrackets(n: int)
    ensures DaysBeforeYear(YearOf(n)) <= n < DaysBeforeYear(YearOf(n) + 1)
  {
    var n400, r400 := n / 146097, n % 146097;
    var n100 := if r400 / 36524 == 4 then 3 else r400 / 36524;
    var r100 := r400 - 36524 * n100;
    var n4, r4 := r100 / 1461, r100 % 1461;
    var n1 := if r4 / 365 == 4 then 3 else r4 / 365;
    CyclePosition(n400, n100, n4, n1);
    if n1 < 3 {
      CyclePosition(n400, n100, n4, n1 + 1);
    } else if n4 < 24 {
      CyclePosition(n400, n100, n4 + 1, 0);
    } else if n100 < 3 {
      CyclePosition(n400, n100 + 1, 0, 0);
    } else {
      CyclePosition(n400 + 1, 0, 0, 0);
    }
  }

  lemma YearOfUnique(n: int, y: int)
    requires DaysBeforeYear(y) <= n < DaysBeforeYear(y + 1)
    ensures YearOf(n) == y
  {
    YearOfBrackets(n);
    var z := YearOf(n);
    if z < y {
      YearsMonotone(z + 1, y);
    } else if y < z {
      YearsMonotone(y + 1, z);
    }
  }

  lemma MonthTable(leap: bool)
    ensures DaysBefore(1, leap) == 0
    ensures DaysBefore(2, leap) == 31
    ensures DaysBefore(3, leap) == if leap then 60 else 59
    ensures DaysBefore(4, leap) == if leap then 91 else 90
    ensures DaysBefore(5, leap) == if leap then 121 else 120
    ensures DaysBefore(6, leap) == if leap then 152 else 151
    ensures DaysBefore(7, leap) == if leap then 182 else 181
    ensures DaysBefore(8, leap) == if leap then 213 else 212
    ensures DaysBefore(9, leap) == if leap then 244 else 243
    ensures DaysBefore(10, leap) == if leap then 274 else 273
    ensures DaysBefore(11, leap) == if leap then 305 else 304
    ensures DaysBefore(12, leap) == if leap then 335 else 334
    ensures DaysBefore(13, leap) == if leap then 366 else 365
  {
    assert DaysBefore(4, leap) == DaysBefore(3, leap) + 31;
    assert DaysBefore(7, leap) == DaysBefore(6, leap) + 30;
    assert DaysBefore(10, leap) == DaysBefore(9, leap) + 30;
  }

  lemma {:induction false} MonthFromBrackets(yearDay: int, leap: bool, month: int)
    requires 1 <= month <= 12
    requires DaysBefore(month, leap) <= yearDay < DaysBefore(13, leap)
    ensures var m := MonthFrom(yearDay, leap, month);
      month <= m <= 12 && DaysBefore(m, leap) <= yearDay < DaysBefore(m + 1, leap)
    decreases 12 - month
  {
    if month == 12 || yearDay < DaysBefore(month + 1, leap) {
    } else {
      MonthFromBrackets(yearDay, leap, month + 1);
    }
  }

  lemma {:induction false} MonthsMonotone(m: int, k: int, leap: bool)
    requires 1 <= m <= k
    ensures DaysBefore(m, leap) <= DaysBefore(k, leap)
    decreases k
  {
    if m == k {
    } else {
      MonthsMonotone(m, k - 1, leap);
    }
  }

  /** Every day number is a date, and that date has that number. */
  lemma DateOfIsInverse(n: int)
    ensures ValidDate(DateOf(n)) && DayNumber(DateOf(n)) == n
  {
    var y := YearOf(n);
    YearOfBrackets(n);
    YearSpan(y);
    MonthTable(Leap(y));
    MonthFromBrackets(n - DaysBeforeYear(y), Leap(y), 1);
  }

  lemma DayInsideYear(d: Date)
    requires ValidDate(d)
    ensures DaysBeforeYear(d.year) <= DayNumber(d) < DaysBeforeYear(d.year + 1)
  {
    var leap := Leap(d.year);
    MonthTable(leap);
    MonthsMonotone(1, d.month, leap);
    MonthsMonotone(d.month + 1, 13, leap);
    assert DaysBefore(d.month + 1, leap) == DaysBefore(d.month, leap) + DaysIn(d.month, leap);
    YearSpan(d.year);
  }

  lemma MonthFromUnique(yearDay: int, leap: bool, month: int)
    requires 1 <= month <= 12
    requires DaysBefore(month, leap) <= yearDay < DaysBefore(month + 1, leap)
    ensures MonthFrom(yearDay, leap, 1) == month
  {
    MonthsMonotone(1, month, leap);
    MonthsMonotone(month + 1, 13, leap);
    MonthFromBrackets(yearDay, leap, 1);
    var m := MonthFrom(yearDay, leap, 1);
    if m < month {
      MonthsMonotone(m + 1, month, leap);
    } else if month < m {
      MonthsMonotone(month + 1, m, leap);
    }
  }

  /** Every calendar date comes back from its day number. */
  lemma DayNumberIsInverse(d: Date)
    requires ValidDate(d)
    ensures DateOf(DayNumber(d)) == d
  {
    hide YearOf, MonthFrom, DaysBeforeYear;
    DayInsideYear(d);
    YearOfUnique(DayNumber(d), d.year);
    MonthFromUnique(DaysBefore(d.month, Leap(d.year)) + d.day - 1, Leap(d.year), d.month);
  }

  /** The following calendar date. */
  function NextDate(d: Date): Date {
    if d.day < DaysIn(d.month, Leap(d.year)) then d.(day := d.day + 1)
    else if d.month < 12 then Date(d.year, d.month + 1, 1)
    else Date(d.year + 1, 1, 1)
  }

  lemma DatesAreConsecutive(n: int)
    ensures DateOf(n + 1) == NextDate(DateOf(n))
  {
    hide YearOf, MonthFrom, DateOf;
    DateOfIsInverse(n);
    var d := DateOf(n);
    YearSpan(d.year);
    MonthTable(Leap(d.year));
    DayNumberIsInverse(NextDate(d));
  }

  /** Instant 0 is midnight on 1 January of year 1, a Monday. */
  lemma CalendarStarts()
    ensures DateOf(0) == Date(1, 1, 1) && ClockAt(0) == Clock(1, 1, 0, 0, 0, 1)
  {
    hide YearOf, MonthFrom, DateOf;
    DayNumberIsInverse(Date(1, 1, 1));
  }

  /** The Unix epoch, 62135596800 seconds on, is a Thursday. */
  lemma UnixEpoch()
    ensures DateOf(719162) == Date(1970, 1, 1) && Weekday(719162) == 4 && 719162 * DAY == 62_135_596_800
  {
    hide YearOf, MonthFrom, DateOf;
    DayNumberIsInverse(Date(1970, 1, 1));
    assert DaysBeforeYear(1970) == 719162;
  }

  lemma WeekdaysFollow(n: int)
    ensures 0 <= Weekday(n) <= 6 && Weekday(n + 1) == if Weekday(n) == 6 then 0 else Weekday(n) + 1
  {
  }

  /** Moving a date one year on moves its day number by 365 or 366. */
  lemma YearOnSpan(d: Date)
    requires ValidDate(d)
    ensures var n := DayNumber(d.(year := d.year + 1));
      DayNumber(d) + 365 <= n <= DayNumber(d) + 366
  {
    YearSpan(d.year);
    LeapYearsApart(d.year);
    MonthTable(Leap(d.year));
    MonthTable(Leap(d.year + 1));
  }

  lemma LeapYearsApart(y: int)
    ensures !(Leap(y) && Leap(y + 1))
  {
  }

  lemma SplitInstant(day: int, timeOfDay: int)
    requires 0 <= timeOfDay < DAY
    ensures DayOf(DAY * day + timeOfDay) == day && TimeOfDay(DAY * day + timeOfDay) == timeOfDay
  {
  }

  /** The date one year on; 29 February becomes 1 March. */
  function YearOn(d: Date): Date {
    if d.month == 2 && d.day == 29 then Date(d.year + 1, 3, 1) else Date(d.year + 1, d.month, d.day)
  }

  lemma YearOnDay(d: Date)
    requires ValidDate(d)
    ensures ValidDate(YearOn(d)) && DayNumber(YearOn(d)) == DayNumber(d.(year := d.year + 1))
  {
    LeapYearsApart(d.year);
    MonthTable(Leap(d.year + 1));
  }

  lemma YearOnInstant(d: Date, timeOfDay: int)
    requires ValidDate(d) && 0 <= timeOfDay < DAY
    ensures var t := DAY * DayNumber(d.(year := d.year + 1)) + timeOfDay;
      && TimeOfDay(t) == timeOfDay
      && DayNumber(d) + 365 <= DayOf(t) <= DayNumber(d) + 366
      && DateOf(DayOf(t)) == YearOn(d)
  {
    YearOnSpan(d);
    YearOnDay(d);
    DayNumberIsInverse(YearOn(d));
    SplitInstant(DayNumber(YearOn(d)), timeOfDay);
  }

  /** The instant one year on is 365 or 366 days ahead, at the same time of day, and names the
      same month and day unless the start was 29 February, which becomes 1 March. */
  lemma AddYearShape(t: Time)
    ensures TimeOfDay(AddYear(t)) == TimeOfDay(t)
    ensures DayOf(t) + 365 <= DayOf(AddYear(t)) <= DayOf(t) + 366
    ensures DateOf(DayOf(AddYear(t))) == YearOn(DateOf(DayOf(t)))
  {
    hide YearOf, MonthFrom, DaysBefore, DaysBeforeYear;
    DateOfIsInverse(DayOf(t));
    YearOnInstant(DateOf(DayOf(t)), TimeOfDay(t));
  }
}
