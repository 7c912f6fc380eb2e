/** Schedules against the calendar and the clock (src/schedule.ts): which dates they fall on, and at which times. */
module CivilCalendar {
  // The statements here name dates, weekdays and clock readings, and nothing the search
  // itself computes with.

  import opened Wrappers
  import opened ScheduleClock
  import B = Buckets

  /** The number of a date of the Gregorian calendar, counted from 1970-01-01; months and days from 1. */
  function Date(year: int, month: int, day: int): int {
    B.MonthStart(12 * year + month - 1) - B.EPOCH + day - 1
  }

  /** A week of seven days: 1 January 2000 was a Saturday, and each day's weekday is one more than the day before's. */
  ghost predicate Week(dow: int -> int) {
    dow(Date(2000, 1, 1)) == 6 && forall day :: Follows(dow, day)
  }

  predicate Follows(dow: int -> int, day: int) {
    0 <= dow(day) <= 6 && dow(day + 1) == if dow(day) == 6 then 0 else dow(day) + 1
  }

  lemma AnchorDate()
    ensures Date(2000, 1, 1) == 10957
  {
    assert (12 * 2000 + 1 - 1) / 12 == 2000 && (12 * 2000 + 1 - 1) % 12 == 0;
  }

  /** There is one such numbering, and 1970 began on a Thursday. */
  lemma WeekdayIsCalendar(dow: int -> int, day: int)
    requires Week(dow)
    ensures Weekday(day) == dow(day)
  {
    AnchorDate();
    if day >= 10957 { WeekForward(dow, day); } else { WeekBackward(dow, day); }
  }

  lemma {:induction false} WeekForward(dow: int -> int, day: int)
    requires Week(dow) && day >= 10957
    ensures Weekday(day) == dow(day)
    decreases day
  {
    AnchorDate();
    if day > 10957 {
      WeekForward(dow, day - 1);
      assert Follows(dow, day - 1);
    }
  }

  lemma {:induction false} WeekBackward(dow: int -> int, day: int)
    requires Week(dow) && day <= 10957
    ensures Weekday(day) == dow(day)
    decreases 10957 - day
  {
    AnchorDate();
    if day < 10957 {
      WeekBackward(dow, day + 1);
      assert Follows(dow, day);
    }
  }

  lemma SomeWeek() returns (dow: int -> int)
    ensures Week(dow)
  {
    dow := day => (day - Date(2000, 1, 1) + 6) % 7;
  }

  /** The weekdays of two dates, and of a date and the next: 2000 began on a Saturday, 1970 on a Thursday. */
  lemma WeekdaysAre(w: Window, day: int)
    requires w.weekday.Some?
    ensures Matches(w, Date(2000, 1, 1)) <==> w.weekday.value == 6
    ensures Matches(w, Date(1970, 1, 1)) <==> w.weekday.value == 4
    ensures 0 <= w.weekday.value <= 6 ==>
      (Matches(w, day + 1) <==> Matches(w.(weekday := Some((w.weekday.value + 6) % 7)), day))
  {
    AnchorDate();
    B.EpochIsJanuary1970();
  }

  /** Where the buckets of the statistics start: hours and days in UTC, the first of a month, 1 January. */
  lemma BucketsStartOn(year: int, month: int, i: int)
    requires 1 <= month <= 12
    ensures B.Grid(B.MonthStart, B.Hour, i) == i * (60 * 60 * 1000)
    ensures B.Grid(B.MonthStart, B.Day, i) == i * (24 * 60 * 60 * 1000)
    ensures B.Grid(B.MonthStart, B.Month, 12 * year + month - 1) == Date(year, month, 1) * DAY
    ensures B.Grid(B.MonthStart, B.Year, year) == Date(year, 1, 1) * DAY
  {
  }

  // ------------------------------------------------------- clock readings

  /** At instant t a clock in the zone reads this date and time, and no seconds. */
  predicate Reads(z: Zone, t: int, day: int, hour: int, minute: int) {
    && (t + z(t)) / DAY == day && (t + z(t)) % DAY / HOUR == hour
    && (t + z(t)) % HOUR / MINUTE == minute && (t + z(t)) % MINUTE == 0
  }

  predicate OnDay(dow: int -> int, w: Window, day: int) { w.weekday.Some? ==> dow(day) == w.weekday.value }

  lemma ReadsIsWall(z: Zone, w: Window, t: int, day: int)
    requires ValidTime(w)
    ensures Reads(z, t, day, w.hour, w.minute) <==> Wall(z, t) == Naive(w, day)
  {
    var x := t + z(t);
    if x == Naive(w, day) { Decomposes(x, day, w.hour, w.minute); }
    if Reads(z, t, day, w.hour, w.minute) { Recomposes(x); }
  }

  lemma Recomposes(x: int)
    ensures x == x / DAY * DAY + x % DAY / HOUR * HOUR + x % HOUR / MINUTE * MINUTE + x % MINUTE
  {
    Nests(x, 24, HOUR);
    Nests(x, 60, MINUTE);
  }

  /** A remainder of a multiple keeps the remainder. */
  lemma Nests(x: int, k: int, n: int)
    requires k > 0 && n > 0
    ensures x % (k * n) % n == x % n
  {
    var q, r := x / (k * n), x % (k * n);
    assert x == q * (k * n) + r;
    assert x == (q * k + r / n) * n + r % n;
    Unique(x, n, q * k + r / n, r % n);
  }

  lemma Unique(x: int, n: int, q: int, r: int)
    requires n > 0 && x == q * n + r && 0 <= r < n
    ensures x / n == q && x % n == r
  {
    var d := x / n;
    assert d + 1 <= q ==> (d + 1) * n <= q * n;
    assert q + 1 <= d ==> (q + 1) * n <= d * n;
  }

  lemma Decomposes(x: int, day: int, hour: int, minute: int)
    requires x == day * DAY + hour * HOUR + minute * MINUTE && 0 <= hour < 24 && 0 <= minute < 60
    ensures x / DAY == day && x % DAY / HOUR == hour && x % HOUR / MINUTE == minute && x % MINUTE == 0
  {
    Unique(x, DAY, day, hour * HOUR + minute * MINUTE);
    Unique(x % DAY, HOUR, hour, minute * MINUTE);
    Unique(x, HOUR, 24 * day + hour, minute * MINUTE);
    Unique(x, MINUTE, 1440 * day + 60 * hour + minute, 0);
  }

  /** The first instant at which a clock reads this. */
  ghost predicate FirstReads(z: Zone, t: int, day: int, hour: int, minute: int) {
    Reads(z, t, day, hour, minute) && forall u :: Reads(z, u, day, hour, minute) ==> t <= u
  }

  lemma DueIsFirstReading(z: Zone, w: Window, day: int)
    requires Tame(z) && ValidTime(w)
    ensures (exists t :: Reads(z, t, day, w.hour, w.minute)) ==> FirstReads(z, DueOn(z, w, day), day, w.hour, w.minute)
    ensures !(exists t :: Reads(z, t, day, w.hour, w.minute)) ==>
      var at := day * DAY + w.hour * HOUR + w.minute * MINUTE;
      DueOn(z, w, day) + z(DueOn(z, w, day)) == at + z(at + DAY) - z(at - DAY)
  {
    var n := Naive(w, day);
    assert OneTransition(z, n);
    InstantIsCompatible(z, n);
    forall t ensures Reads(z, t, day, w.hour, w.minute) <==> Wall(z, t) == n { ReadsIsWall(z, w, t, day); }
    if t :| Reads(z, t, day, w.hour, w.minute) { assert Shown(z, n); }
  }

  /**
   * The next run, in terms of the calendar and the clock alone: it is after `from`, on one of the nine
   * dates from the local date on, a date of the schedule's weekday; it is the first instant at which
   * a clock reads the scheduled time on that date, or, where a gap skips that time, the length of the
   * gap later.
   */
  lemma NextRunIsOnTime(z: Zone, w: Window, from: int, dow: int -> int) returns (day: int)
    requires Tame(z) && ValidTime(w) && ValidWeekday(w) && Week(dow)
    ensures NextRun(z, w, from).Some?
    ensures var r, at := NextRun(z, w, from).value, day * DAY + w.hour * HOUR + w.minute * MINUTE;
      && r > from && (from + z(from)) / DAY <= day <= (from + z(from)) / DAY + 8 && OnDay(dow, w, day)
      && (if exists t :: Reads(z, t, day, w.hour, w.minute) then FirstReads(z, r, day, w.hour, w.minute)
          else r + z(r) == at + z(at + DAY) - z(at - DAY))
  {
    NextRunExists(z, w, from);
    day := FirstDueIsFirst(z, w, from, LocalDay(z, from), 0);
    WeekdayIsCalendar(dow, day);
    DueIsFirstReading(z, w, day);
  }

  /** And no scheduled time of a matching date from the local date on is sooner. */
  lemma NextRunIsFirstOfAll(z: Zone, w: Window, from: int, dow: int -> int, day: int, t: int)
    requires Tame(z) && ValidTime(w) && ValidWeekday(w) && Week(dow)
    requires day >= (from + z(from)) / DAY && OnDay(dow, w, day) && t > from
    requires FirstReads(z, t, day, w.hour, w.minute)
    ensures NextRun(z, w, from).Some? && NextRun(z, w, from).value <= t
  {
    NextRunIsLeast(z, w, from);
    WeekdayIsCalendar(dow, day);
    DueIsFirstReading(z, w, day);
    assert DueOn(z, w, day) == t;
    assert Fires(z, w, from, day);
  }

  /** Mondays at nine in UTC, asked as Monday 1 January 2024 begins: that morning. */
  lemma MondayMorning()
    ensures var utc: Zone, monday := t => 0, Date(2024, 1, 1) * DAY;
      Tame(utc) && NextRun(utc, Window(9, 0, Some(1)), monday) == Some(monday + 9 * HOUR)
  {
    var utc: Zone := t => 0;
    assert (12 * 2024 + 1 - 1) / 12 == 2024 && (12 * 2024 + 1 - 1) % 12 == 0;
    assert Date(2024, 1, 1) == 19723;
    forall n ensures OneTransition(utc, n) && SmallJump(utc, n) { assert StepsAt(utc, n, n); }
    var from := 19723 * DAY;
    assert LocalDay(utc, from) == 19723;
    assert Fires(utc, Window(9, 0, Some(1)), from, 19723 + 0);
  }
}
