/** Due-time arithmetic of the scheduler (src/schedule.ts). */
module ScheduleClock {
  // Instants and wall clocks are milliseconds. A time zone is the step function
  // "offset in force at this instant" (local minus UTC); a civil day is a number,
  // counted from 1970-01-01, so that Date.UTC(y, m, d) is day * DAY.

  import opened Wrappers

  const SECOND := 1_000
  const MINUTE := 60_000
  const HOUR := 3_600_000
  const DAY := 86_400_000

  type Zone = int -> int

  /** What a clock in the zone reads at instant t. */
  function Wall(z: Zone, t: int): int { t + z(t) }

  /** Offsets are whole minutes and shorter than a day. */
  ghost predicate Bounded(z: Zone) {
    (forall t :: -DAY < z(t) < DAY) && forall t :: WholeOffset(z, t)
  }

  predicate WholeOffset(z: Zone, t: int) { z(t) % MINUTE == 0 }

  /** In the 48 hours around n the offset changes at most once, at instant `at`. */
  ghost predicate StepsAt(z: Zone, n: int, at: int) {
    forall t :: n - DAY <= t <= n + DAY ==> z(t) == if t < at then z(n - DAY) else z(n + DAY)
  }

  ghost predicate OneTransition(z: Zone, n: int) {
    exists at :: StepsAt(z, n, at)
  }

  /** No change of offset moves the clock by more than a day. */
  predicate SmallJump(z: Zone, n: int) {
    -DAY <= z(n + DAY) - z(n - DAY) <= DAY
  }

  ghost predicate Tame(z: Zone) {
    && Bounded(z)
    && forall n :: OneTransition(z, n) && SmallJump(z, n)
  }

  // ---------------------------------------------------------------- offsetMs

  /** JavaScript's remainder, which takes the sign of the dividend. */
  function JsRem(a: int, b: int): int
    requires b > 0
  {
    if a >= 0 then a % b else -((-a) % b)
  }

  /** The formatter's wall clock has whole seconds; the instant's milliseconds are dropped with %. */
  function OffsetMs(z: Zone, t: int): int {
    Wall(z, t) / SECOND * SECOND - (t - JsRem(t, SECOND))
  }

  /** The derived offset is the zone's offset except at fractional seconds before 1970. */
  lemma OffsetMsExact(z: Zone, t: int)
    requires Bounded(z)
    ensures OffsetMs(z, t) == z(t) <==> (t >= 0 || t % SECOND == 0)
  {
    assert WholeOffset(z, t);
    MinutesAreSeconds(z(t));
    FloorShifts(t, z(t));
    FloorDropsRemainder(t);
    RemaindersAgree(t);
  }

  lemma Quotient(x: int, q: int, r: int)
    requires x == q * SECOND + r && 0 <= r < SECOND
    ensures x / SECOND == q && x % SECOND == r
  {
  }

  lemma FloorShifts(t: int, x: int)
    requires x % SECOND == 0
    ensures (t + x) / SECOND * SECOND == t / SECOND * SECOND + x
  {
    Quotient(t + x, t / SECOND + x / SECOND, t % SECOND);
  }

  lemma FloorDropsRemainder(t: int)
    ensures t / SECOND * SECOND == t - t % SECOND
  {
  }

  lemma RemaindersAgree(t: int)
    ensures JsRem(t, SECOND) == t % SECOND <==> (t >= 0 || t % SECOND == 0)
  {
    if t < 0 && t % SECOND == 0 { Quotient(-t, -(t / SECOND), 0); }
  }

  lemma MinutesAreSeconds(x: int)
    requires x % MINUTE == 0
    ensures x % SECOND == 0
  {
    var q := x / MINUTE;
    assert x == q * MINUTE == (60 * q) * SECOND;
  }

  /** Where it is called, a day either side of a wall clock of whole minutes, it is exact. */
  lemma SampledOffsetsAreExact(z: Zone, naive: int)
    requires Bounded(z) && naive % MINUTE == 0
    ensures OffsetMs(z, naive - DAY) == z(naive - DAY) && OffsetMs(z, naive + DAY) == z(naive + DAY)
  {
    MinutesAreSeconds(naive);
    Quotient(naive - DAY, naive / SECOND - DAY / SECOND, 0);
    Quotient(naive + DAY, naive / SECOND + DAY / SECOND, 0);
    OffsetMsExact(z, naive - DAY);
    OffsetMsExact(z, naive + DAY);
  }

  // ------------------------------------------------------ instantForWallClock

  /** Temporal's 'compatible' choice, with the offsets a day either side. */
  function InstantFor(z: Zone, naive: int): int {
    var before, after := z(naive - DAY), z(naive + DAY);
    if Wall(z, naive - before) == naive then naive - before
    else if Wall(z, naive - after) == naive then naive - after
    else naive - before
  }

  method InstantForWallClock(z: Zone, naive: int) returns (instant: int)
    requires Bounded(z) && naive % MINUTE == 0
    ensures instant == InstantFor(z, naive)
  {
    SampledOffsetsAreExact(z, naive);
    var before, after := OffsetMs(z, naive - DAY), OffsetMs(z, naive + DAY);
    var candidates := [naive - before, naive - after];
    assert WholeOffset(z, naive - DAY) && WholeOffset(z, naive + DAY);
    for i := 0 to 2
      invariant forall k :: 0 <= k < i ==> Wall(z, candidates[k]) != naive
    {
      var shown := Wall(z, candidates[i]) / MINUTE * MINUTE;
      assert WholeOffset(z, candidates[i]);
      WholeMinutes(naive, if i == 0 then before else after, z(candidates[i]));
      assert shown == Wall(z, candidates[i]);
      if shown == naive {
        assert i == 1 ==> Wall(z, candidates[0]) != naive;
        return candidates[i];
      }
    }
    assert Wall(z, candidates[0]) != naive && Wall(z, candidates[1]) != naive;
    return naive - before;
  }

  lemma WholeMinutes(n: int, a: int, b: int)
    requires n % MINUTE == 0 && a % MINUTE == 0 && b % MINUTE == 0
    ensures (n - a + b) / MINUTE * MINUTE == n - a + b
  {
    var i, j, k := n / MINUTE, a / MINUTE, b / MINUTE;
    assert n - a + b == (i - j + k) * MINUTE;
  }

  ghost predicate Shown(z: Zone, naive: int) {
    exists t :: Wall(z, t) == naive
  }

  /**
   * A wall clock that occurs is resolved to the first instant showing it (the
   * first pass of a fold); one that never occurs is resolved to the instant
   * showing it exactly the length of the gap later.
   */
  lemma InstantIsCompatible(z: Zone, naive: int)
    requires Bounded(z) && OneTransition(z, naive)
    ensures var r := InstantFor(z, naive);
      if Shown(z, naive)
      then Wall(z, r) == naive && forall t :: Wall(z, t) == naive ==> r <= t
      else z(naive + DAY) > z(naive - DAY) && Wall(z, r) == naive + z(naive + DAY) - z(naive - DAY)
  {
    var at :| StepsAt(z, naive, at);
    var b, a := z(naive - DAY), z(naive + DAY);
    assert naive - DAY < naive - b < naive + DAY && naive - DAY < naive - a < naive + DAY;
    forall t | Wall(z, t) == naive
      ensures t == naive - b || t == naive - a
      ensures InstantFor(z, naive) <= t && Wall(z, InstantFor(z, naive)) == naive
    {
      assert naive - DAY <= t <= naive + DAY;
    }
    assert z(naive - b) == b || z(naive - b) == a;
    if !Shown(z, naive) {
      assert Wall(z, naive - b) != naive && Wall(z, naive - a) != naive;
    }
  }

  /** Which wall clocks are skipped: those the clock jumps over at the transition. */
  lemma GapExactly(z: Zone, naive: int, at: int)
    requires Bounded(z) && StepsAt(z, naive, at) && naive - DAY < at <= naive + DAY
    ensures Shown(z, naive) <==> !(at + z(naive - DAY) <= naive < at + z(naive + DAY))
  {
    var b, a := z(naive - DAY), z(naive + DAY);
    assert naive - DAY < naive - b < naive + DAY && naive - DAY < naive - a < naive + DAY;
    if naive - b < at { assert Wall(z, naive - b) == naive; }
    if naive - a >= at { assert Wall(z, naive - a) == naive; }
    forall t | Wall(z, t) == naive ensures !(at + b <= naive < at + a) {
      assert naive - DAY <= t <= naive + DAY;
    }
  }

  // ---------------------------------------------------------- computeNextRun

  /** weekday: None = daily, 0 = Sunday .. 6 = Saturday. */
  datatype Window = Window(hour: int, minute: int, weekday: Option<int>)

  predicate ValidTime(w: Window) {
    0 <= w.hour < 24 && 0 <= w.minute < 60
  }

  predicate ValidWeekday(w: Window) {
    w.weekday.Some? ==> 0 <= w.weekday.value <= 6
  }

  /** 1970-01-01 was a Thursday. */
  function Weekday(day: int): int { (day + 4) % 7 }

  predicate Matches(w: Window, day: int) {
    w.weekday.Some? ==> Weekday(day) == w.weekday.value
  }

  function LocalDay(z: Zone, t: int): int { Wall(z, t) / DAY }

  function Naive(w: Window, day: int): int {
    day * DAY + w.hour * HOUR + w.minute * MINUTE
  }

  /** The instant at which the schedule is due on a civil day. */
  function DueOn(z: Zone, w: Window, day: int): int {
    InstantFor(z, Naive(w, day))
  }

  predicate Fires(z: Zone, w: Window, from: int, day: int) {
    Matches(w, day) && DueOn(z, w, day) > from
  }

  const LAST_OFFSET := 8

  /** The first of the civil days start+k .. start+8 that fires; None is the source's throw. */
  function FirstDue(z: Zone, w: Window, from: int, start: int, k: nat): (r: Option<int>)
    decreases LAST_OFFSET + 1 - k
  {
    if k > LAST_OFFSET then None
    else if Fires(z, w, from, start + k) then Some(DueOn(z, w, start + k))
    else FirstDue(z, w, from, start, k + 1)
  }

  function NextRun(z: Zone, w: Window, from: int): Option<int> {
    FirstDue(z, w, from, LocalDay(z, from), 0)
  }

  method ComputeNextRun(z: Zone, w: Window, from: int) returns (next: Option<int>)
    requires Bounded(z) && ValidTime(w)
    ensures next == NextRun(z, w, from)
  {
    next := SearchFrom(z, w, from, LocalDay(z, from));
  }

  method SearchFrom(z: Zone, w: Window, from: int, start: int) returns (next: Option<int>)
    requires Bounded(z) && ValidTime(w)
    ensures next == FirstDue(z, w, from, start, 0)
  {
    ghost var first := FirstDue(z, w, from, start, 0);
    for offset := 0 to LAST_OFFSET + 1
      invariant first == FirstDue(z, w, from, start, offset)
    {
      StepOfSearch(z, w, from, start, offset);
      var candidate := Candidate(z, w, start + offset, from);
      if candidate.Some? { return candidate; }
    }
    return None;
  }

  lemma StepOfSearch(z: Zone, w: Window, from: int, start: int, k: nat)
    requires k <= LAST_OFFSET
    ensures FirstDue(z, w, from, start, k)
      == if Fires(z, w, from, start + k) then Some(DueOn(z, w, start + k)) else FirstDue(z, w, from, start, k + 1)
  {
  }

  /** The loop's body: a civil day's due instant, if the day matches and it is still to come. */
  method Candidate(z: Zone, w: Window, civil: int, from: int) returns (due: Option<int>)
    requires Bounded(z) && ValidTime(w)
    ensures due == if Fires(z, w, from, civil) then Some(DueOn(z, w, civil)) else None
  {
    if !Matches(w, civil) { return None; }
    NaiveIsWholeMinutes(w, civil);
    var candidate := InstantForWallClock(z, Naive(w, civil));
    return if candidate > from then Some(candidate) else None;
  }

  lemma NaiveIsWholeMinutes(w: Window, day: int)
    ensures Naive(w, day) % MINUTE == 0
  {
    assert Naive(w, day) == (1440 * day + 60 * w.hour + w.minute) * MINUTE;
  }

  /** Due instants follow the calendar: a later civil day is never due earlier. */
  lemma DueFollowsCalendar(z: Zone, n: int)
    requires Tame(z)
    ensures InstantFor(z, n) <= InstantFor(z, n + DAY)
  {
    InstantIsCompatible(z, n);
    InstantIsCompatible(z, n + DAY);
    assert OneTransition(z, n) && OneTransition(z, n + DAY) && SmallJump(z, n) && SmallJump(z, n + DAY);
    var s :| StepsAt(z, n, s);
    var t :| StepsAt(z, n + DAY, t);
    var r := InstantFor(z, n);
    var q := InstantFor(z, n + DAY);
    assert z(n) == (if n < s then z(n - DAY) else z(n + DAY));
    assert z(n + DAY) == (if n + DAY < t then z(n) else z(n + DAY + DAY));
  }

  lemma {:induction false} DueMonotone(z: Zone, w: Window, day: int, later: int)
    requires Tame(z) && day <= later
    ensures DueOn(z, w, day) <= DueOn(z, w, later)
    decreases later - day
  {
    if day < later {
      DueMonotone(z, w, day, later - 1);
      DueFollowsCalendar(z, Naive(w, later - 1));
      assert Naive(w, later) == Naive(w, later - 1) + DAY;
    }
  }

  /** A wall clock more than a day ahead of the one shown now is still to come. */
  lemma FarAheadIsLater(z: Zone, n: int, from: int)
    requires Tame(z) && Wall(z, from) + DAY < n
    ensures InstantFor(z, n) > from
  {
    InstantIsCompatible(z, n);
    assert OneTransition(z, n) && SmallJump(z, n);
    var r := InstantFor(z, n);
    assert OneTransition(z, r + DAY) && SmallJump(z, r + DAY);
    var at :| StepsAt(z, r + DAY, at);
    assert r <= from <= r + 2 * DAY ==> z(from) == if from < at then z(r) else z(r + 2 * DAY);
  }

  /** A wall clock a day or more behind the one shown now has passed. */
  lemma FarBehindIsPast(z: Zone, n: int, from: int)
    requires Tame(z) && n + DAY <= Wall(z, from)
    ensures InstantFor(z, n) <= from
  {
    InstantIsCompatible(z, n);
    assert OneTransition(z, n) && SmallJump(z, n);
    var at :| StepsAt(z, n, at);
    var b, a := z(n - DAY), z(n + DAY);
    var r := InstantFor(z, n);
  }

  /** Weekdays recur every seven days. */
  lemma MatchingDayInWeek(w: Window, start: int) returns (k: int)
    requires ValidWeekday(w)
    ensures 0 <= k <= 6 && Matches(w, start + k) && Matches(w, start + k + 7)
  {
    k := if w.weekday.None? then 0 else (w.weekday.value - Weekday(start)) % 7;
    assert w.weekday.Some? ==> Weekday(start + k) == w.weekday.value;
    assert Weekday(start + k + 7) == Weekday(start + k);
  }

  /** What the loop returns: the first firing day of the nine. */
  lemma {:induction false} FirstDueIsFirst(z: Zone, w: Window, from: int, start: int, k: nat) returns (day: int)
    requires k <= LAST_OFFSET + 1
    ensures var r := FirstDue(z, w, from, start, k);
      if r.Some?
      then start + k <= day <= start + LAST_OFFSET && Fires(z, w, from, day) && r.value == DueOn(z, w, day)
           && forall d :: start + k <= d < day ==> !Fires(z, w, from, d)
      else forall d :: start + k <= d <= start + LAST_OFFSET ==> !Fires(z, w, from, d)
    decreases LAST_OFFSET + 1 - k
  {
    if k > LAST_OFFSET {
      day := start;
    } else if Fires(z, w, from, start + k) {
      day := start + k;
    } else {
      day := FirstDueIsFirst(z, w, from, start, k + 1);
    }
  }

  /** Every civil day from the day after tomorrow on is still to come. */
  lemma TwoDaysOnIsLater(z: Zone, w: Window, from: int, day: int)
    requires Tame(z) && ValidTime(w) && day >= LocalDay(z, from) + 2
    ensures DueOn(z, w, day) > from
  {
    var start := LocalDay(z, from);
    assert Wall(z, from) < start * DAY + DAY;
    FarAheadIsLater(z, Naive(w, start + 2), from);
    DueMonotone(z, w, start + 2, day);
  }

  /** The throw at the end of the loop is reached exactly by weekdays outside 0..6. */
  lemma NextRunExists(z: Zone, w: Window, from: int)
    requires Tame(z) && ValidTime(w)
    ensures NextRun(z, w, from).Some? <==> ValidWeekday(w)
  {
    var start := LocalDay(z, from);
    var day := FirstDueIsFirst(z, w, from, start, 0);
    if ValidWeekday(w) {
      var k := MatchingDayInWeek(w, start);
      var d := if k >= 2 then start + k else start + k + 7;
      TwoDaysOnIsLater(z, w, from, d);
      assert Fires(z, w, from, d);
    }
  }

  /** The result is after `from` and the least due instant of any matching civil day from the local date on. */
  lemma NextRunIsLeast(z: Zone, w: Window, from: int)
    requires Tame(z) && ValidTime(w) && ValidWeekday(w)
    ensures var r := NextRun(z, w, from);
      && r.Some? && r.value > from
      && (exists day :: day >= LocalDay(z, from) && Fires(z, w, from, day) && r.value == DueOn(z, w, day))
      && (forall day :: day >= LocalDay(z, from) && Fires(z, w, from, day) ==> r.value <= DueOn(z, w, day))
  {
    NextRunExists(z, w, from);
    var start := LocalDay(z, from);
    var first := FirstDueIsFirst(z, w, from, start, 0);
    forall day | day >= start && Fires(z, w, from, day)
      ensures NextRun(z, w, from).value <= DueOn(z, w, day)
    {
      DueMonotone(z, w, first, day);
    }
  }

  /** Yesterday's due instant is still ahead, and not what the search returns. */
  predicate YesterdayMissed(z: Zone, w: Window, from: int) {
    var y := LocalDay(z, from) - 1;
    Fires(z, w, from, y) && (w.weekday.Some? || DueOn(z, w, y) < DueOn(z, w, y + 1))
  }

  /**
   * Over ALL civil days the result is least except in one situation: yesterday's
   * wall clock was skipped by a gap across midnight and resolves to a time today
   * that is still ahead, and today's is not the same instant. The search starts at
   * the local date and misses it.
   */
  lemma LeastOverAllDays(z: Zone, w: Window, from: int)
    requires Tame(z) && ValidTime(w) && ValidWeekday(w)
    ensures NextRun(z, w, from).Some?
    ensures (forall day :: Fires(z, w, from, day) ==> NextRun(z, w, from).value <= DueOn(z, w, day)) <==>
      !YesterdayMissed(z, w, from)
  {
    NextRunIsLeast(z, w, from);
    var start := LocalDay(z, from);
    var v := NextRun(z, w, from).value;
    forall day | Fires(z, w, from, day) && day != start - 1
      ensures v <= DueOn(z, w, day)
    {
      OtherDaysAreNoSooner(z, w, from, day);
    }
    if Fires(z, w, from, start - 1) { YesterdayAgainstResult(z, w, from); }
  }

  lemma YesterdayAgainstResult(z: Zone, w: Window, from: int)
    requires Tame(z) && ValidTime(w) && ValidWeekday(w) && Fires(z, w, from, LocalDay(z, from) - 1)
    ensures NextRun(z, w, from).Some?
    ensures DueOn(z, w, LocalDay(z, from) - 1) < NextRun(z, w, from).value <==> YesterdayMissed(z, w, from)
  {
    NextRunExists(z, w, from);
    var y := LocalDay(z, from) - 1;
    var first := FirstDueIsFirst(z, w, from, y + 1, 0);
    DueMonotone(z, w, y, y + 1);
    if w.weekday.Some? {
      SameWeekdayIsAWeekOn(w, y, first);
      WeekOnIsLater(z, w, y);
      DueMonotone(z, w, y + 7, first);
    } else {
      assert Fires(z, w, from, y + 1);
    }
  }

  lemma SameWeekdayIsAWeekOn(w: Window, day: int, later: int)
    requires w.weekday.Some? && Matches(w, day) && Matches(w, later) && day < later
    ensures later >= day + 7
  {
  }

  lemma WeekOnIsLater(z: Zone, w: Window, day: int)
    requires Tame(z)
    ensures DueOn(z, w, day) < DueOn(z, w, day + 7)
  {
    var n := Naive(w, day);
    assert OneTransition(z, n) && SmallJump(z, n);
    InstantIsCompatible(z, n);
    assert Naive(w, day + 7) == n + 7 * DAY;
    FarAheadIsLater(z, n + 7 * DAY, InstantFor(z, n));
  }

  lemma OtherDaysAreNoSooner(z: Zone, w: Window, from: int, day: int)
    requires Tame(z) && ValidTime(w) && ValidWeekday(w) && Fires(z, w, from, day) && day != LocalDay(z, from) - 1
    ensures NextRun(z, w, from).Some? && NextRun(z, w, from).value <= DueOn(z, w, day)
  {
    NextRunIsLeast(z, w, from);
    EarlierDaysArePast(z, w, from, day);
  }

  lemma EarlierDaysArePast(z: Zone, w: Window, from: int, day: int)
    requires Tame(z) && ValidTime(w)
    ensures day <= LocalDay(z, from) - 2 ==> DueOn(z, w, day) <= from
  {
    var start := LocalDay(z, from);
    if day <= start - 2 {
      FarBehindIsPast(z, Naive(w, start - 2), from);
      DueMonotone(z, w, day, start - 2);
    }
  }

  /** Yesterday's wall clock is still ahead only when a gap skipped it. */
  lemma YesterdayAheadMeansGap(z: Zone, w: Window, from: int)
    requires Tame(z) && ValidTime(w) && Fires(z, w, from, LocalDay(z, from) - 1)
    ensures !Shown(z, Naive(w, LocalDay(z, from) - 1))
  {
    var n := Naive(w, LocalDay(z, from) - 1);
    assert n < Wall(z, from);
    InstantIsCompatible(z, n);
    assert OneTransition(z, n);
    var at :| StepsAt(z, n, at);
    var r := InstantFor(z, n);
    assert z(n - DAY) == z(r) || z(n + DAY) == z(r);
  }

  // ------------------------------------------------------------- witnesses

  /** A zone with a single change of offset, at instant `at`. */
  function OneChange(before: int, after: int, at: int): Zone {
    t => if t < at then before else after
  }

  lemma OneChangeIsTame(before: int, after: int, at: int)
    requires -DAY < before < DAY && -DAY < after < DAY && -DAY <= after - before <= DAY
    requires before % MINUTE == 0 && after % MINUTE == 0
    ensures Tame(OneChange(before, after, at))
  {
    var z := OneChange(before, after, at);
    forall n ensures OneTransition(z, n) && SmallJump(z, n) {
      assert StepsAt(z, n, at);
    }
  }

  /**
   * The ninth candidate is needed: a weekly schedule can be due only on the
   * last of the nine days when the clock is set back across midnight.
   */
  lemma NinthCandidateIsNeeded() returns (z: Zone, w: Window, from: int)
    ensures Tame(z) && ValidTime(w) && ValidWeekday(w)
    ensures NextRun(z, w, from) == Some(DueOn(z, w, LocalDay(z, from) + LAST_OFFSET))
    ensures forall day :: LocalDay(z, from) <= day < LocalDay(z, from) + LAST_OFFSET ==> !Fires(z, w, from, day)
  {
    // The clock goes back one hour at instant DAY + HOUR/2, when it reads 00:30 of
    // day 1; `from` is in the second pass, on day 0 again, after 00:15 of day 1.
    z := OneChange(0, -HOUR, DAY + HOUR / 2);
    OneChangeIsTame(0, -HOUR, DAY + HOUR / 2);
    w := Window(0, 15, Some(Weekday(1)));
    from := DAY + HOUR / 2;
    assert LocalDay(z, from) == 0;
    assert DueOn(z, w, 1) == DAY + 15 * MINUTE;
    assert DueOn(z, w, 8) == 8 * DAY + 15 * MINUTE + HOUR;
    assert forall k :: 0 <= k < LAST_OFFSET && k != 1 ==> !Matches(w, k);
    var day := FirstDueIsFirst(z, w, from, 0, 0);
    assert Fires(z, w, from, 8);
    assert day == 8;
  }

  /** And the gap across midnight is real: the search can miss a run that is still ahead today. */
  lemma MidnightGapIsMissed() returns (z: Zone, w: Window, from: int)
    ensures Tame(z) && ValidTime(w) && ValidWeekday(w)
    ensures Fires(z, w, from, LocalDay(z, from) - 1)
    ensures NextRun(z, w, from).Some? && DueOn(z, w, LocalDay(z, from) - 1) < NextRun(z, w, from).value
  {
    // 23:30 becomes 00:30 of the next day; a 23:45 schedule resolves to 00:45.
    var at := DAY - HOUR / 2;
    z := OneChange(0, HOUR, at);
    OneChangeIsTame(0, HOUR, at);
    w, from := Window(23, 45, None), at;
    assert LocalDay(z, at) == 1;
    assert DueOn(z, w, 0) == DAY - 15 * MINUTE;
    assert DueOn(z, w, 1) == 2 * DAY - 15 * MINUTE - HOUR;
    assert Fires(z, w, at, 0) && Fires(z, w, at, 1);
  }
}
