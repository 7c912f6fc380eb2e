/**
 * Calendar buckets of the statistics API (src/stats.ts).
 *
 * Hours, days, months and years in UTC milliseconds: flooring an instant to the start of its
 * bucket, stepping to the next one, and enumerating the buckets of a window.
 */
module Buckets {
  import opened Text

  datatype Bucket = Hour | Day | Month | Year

  const HOUR := 3_600_000
  const DAY := 24 * HOUR

  // ------------------------------------------------------------- calendar

  /** Days from 1 January of year 0 to 1 January of year y, in the proleptic Gregorian calendar. */
  function YearStart(y: int): int { 365 * y + (y + 3) / 4 - (y + 99) / 100 + (y + 399) / 400 }

  predicate Leap(y: int) { y % 4 == 0 && (y % 100 != 0 || y % 400 == 0) }

  function MonthDays(y: int, m: int): int {
    if m == 1 then (if Leap(y) then 29 else 28) else if m == 3 || m == 5 || m == 8 || m == 10 then 30 else 31
  }

  function DaysBefore(y: int, m: int): int
    requires 0 <= m <= 12
    decreases m
  {
    if m == 0 then 0 else DaysBefore(y, m - 1) + MonthDays(y, m - 1)
  }

  lemma YearLength(y: int)
    ensures YearStart(y + 1) - YearStart(y) == if Leap(y) then 366 else 365
  {
    DivStep(y, 4);
    DivStep(y, 100);
    DivStep(y, 400);
    MultiplesNest(y);
  }

  lemma MultiplesNest(y: int)
    ensures (y % 400 == 0 ==> y % 100 == 0) && (y % 100 == 0 ==> y % 4 == 0)
  {
    if y % 100 == 0 { assert y == 4 * (25 * (y / 100)); }
    if y % 400 == 0 { assert y == 100 * (4 * (y / 400)); }
  }

  /** (y + n - 1) / n counts the multiples of n below y: it grows exactly at multiples. */
  lemma DivStep(y: int, n: int)
    requires n > 1
    ensures (y + n) / n - (y + n - 1) / n == if y % n == 0 then 1 else 0
  {
    var q, r := y / n, y % n;
    assert y == q * n + r;
    Quotient(y + n, n, q + 1, r);
    if r == 0 { Quotient(y + n - 1, n, q, n - 1); } else { Quotient(y + n - 1, n, q + 1, r - 1); }
  }

  lemma Quotient(x: int, n: int, q: int, r: int)
    requires n > 0 && 0 <= r < n && x == q * n + r
    ensures x / n == q
  {
    var d := x / n;
    assert d + 1 <= q ==> (d + 1) * n <= q * n;
    assert q + 1 <= d ==> (q + 1) * n <= d * n;
  }

  /** Days from the epoch of the count to the first day of month k, months counted from January of year 0. */
  function MonthStart(k: int): int { YearStart(k / 12) + DaysBefore(k / 12, k % 12) }

  lemma MonthLength(k: int)
    ensures 28 <= MonthStart(k + 1) - MonthStart(k) == MonthDays(k / 12, k % 12) <= 31
  {
    var y, m := k / 12, k % 12;
    if m == 11 {
      YearLength(y);
      assert (k + 1) / 12 == y + 1 && (k + 1) % 12 == 0;
      assert DaysBefore(y, 11) == 334 + (if Leap(y) then 1 else 0) by { YearDays(y); }
    } else {
      assert (k + 1) / 12 == y && (k + 1) % 12 == m + 1;
    }
  }

  lemma YearDays(y: int)
    ensures DaysBefore(y, 11) == 334 + if Leap(y) then 1 else 0
  {
    assert DaysBefore(y, 4) == DaysBefore(y, 0) + MonthDays(y, 0) + MonthDays(y, 1) + MonthDays(y, 2) + MonthDays(y, 3);
    assert DaysBefore(y, 8) == DaysBefore(y, 4) + MonthDays(y, 4) + MonthDays(y, 5) + MonthDays(y, 6) + MonthDays(y, 7);
    assert DaysBefore(y, 11) == DaysBefore(y, 8) + MonthDays(y, 8) + MonthDays(y, 9) + MonthDays(y, 10);
  }

  /** The day number of 1 January 1970. */
  const EPOCH := 719528

  lemma EpochIsJanuary1970()
    ensures MonthStart(12 * 1970) == EPOCH
  {
  }

  /** Days from 1 January to the first of each month of a common year. */
  const MONTH_STARTS := [0, 31, 59, 90, 120, 151, 181, 212, 243, 273, 304, 334]

  /** The months of every year start where they do, one day later from March on in a leap year. */
  lemma MonthsStartWhere(y: int, m: int)
    requires 0 <= m < 12
    ensures MonthStart(12 * y + m) - MonthStart(12 * y)
      == MONTH_STARTS[m] + if m >= 2 && y % 4 == 0 && (y % 100 != 0 || y % 400 == 0) then 1 else 0
    ensures MonthStart(12 * (y + 1)) - MonthStart(12 * y)
      == if y % 4 == 0 && (y % 100 != 0 || y % 400 == 0) then 366 else 365
  {
    assert (12 * y + m) / 12 == y && (12 * y + m) % 12 == m && 12 * y / 12 == y && 12 * y % 12 == 0;
    assert 12 * (y + 1) / 12 == y + 1 && 12 * (y + 1) % 12 == 0;
    YearLength(y);
    MonthsBefore(y, m);
  }

  lemma {:induction false} MonthsBefore(y: int, m: int)
    requires 0 <= m < 12
    ensures DaysBefore(y, m) == MONTH_STARTS[m] + if m >= 2 && Leap(y) then 1 else 0
    decreases m
  {
    if m > 0 { MonthsBefore(y, m - 1); }
  }

  /** All that bucketing needs of a calendar: cal(k) is the first day of month k, and months last 28 to 31 days. */
  type Calendar = int -> int

  predicate MonthFits(cal: Calendar, k: int) { 28 <= cal(k + 1) - cal(k) <= 31 }

  ghost predicate Regular(cal: Calendar) { forall k :: MonthFits(cal, k) }

  lemma GregorianIsRegular()
    ensures Regular(MonthStart)
  {
    forall k ensures MonthFits(MonthStart, k) { MonthLength(k); }
  }

  lemma {:induction false} MonthsAscend(cal: Calendar, i: int, j: int)
    requires Regular(cal) && i <= j
    ensures cal(j) - cal(i) >= 28 * (j - i)
    decreases j - i
  {
    if i < j {
      MonthsAscend(cal, i, j - 1);
      assert MonthFits(cal, j - 1);
    }
  }

  /** The month a day lies in, searched for from month k. */
  function MonthFrom(cal: Calendar, day: int, k: int): (r: int)
    requires Regular(cal)
    ensures cal(r) <= day < cal(r + 1)
    decreases if day < cal(k) then cal(k) - day else if day >= cal(k + 1) then day - cal(k) else 0
  {
    assert MonthFits(cal, k) && MonthFits(cal, k - 1);
    if day < cal(k) then (if day >= cal(k - 1) then k - 1 else MonthFrom(cal, day, k - 1))
    else if day >= cal(k + 1) then MonthFrom(cal, day, k + 1)
    else k
  }

  function MonthOf(cal: Calendar, day: int): (r: int)
    requires Regular(cal)
    ensures cal(r) <= day < cal(r + 1)
  {
    MonthFrom(cal, day, 0)
  }

  lemma MonthIs(cal: Calendar, day: int, k: int)
    requires Regular(cal) && cal(k) <= day < cal(k + 1)
    ensures MonthOf(cal, day) == k
  {
    var r := MonthOf(cal, day);
    if r < k { MonthsAscend(cal, r + 1, k); }
    if r > k { MonthsAscend(cal, k + 1, r); }
  }

  // ------------------------------------------------------------- the grid

  function DayOf(t: int): int { t / DAY + EPOCH }

  function Midnight(day: int): int { (day - EPOCH) * DAY }

  /** Where bucket i starts; buckets are counted across all time. */
  function Grid(cal: Calendar, b: Bucket, i: int): int {
    match b
    case Hour => i * HOUR
    case Day => i * DAY
    case Month => Midnight(cal(i))
    case Year => Midnight(cal(12 * i))
  }

  /** The bucket an instant lies in. */
  function Index(cal: Calendar, b: Bucket, t: int): int
    requires Regular(cal)
  {
    match b
    case Hour => t / HOUR
    case Day => t / DAY
    case Month => MonthOf(cal, DayOf(t))
    case Year => MonthOf(cal, DayOf(t)) / 12
  }

  lemma DayBounds(t: int)
    ensures Midnight(DayOf(t)) <= t < Midnight(DayOf(t) + 1) && Midnight(DayOf(t)) == t - t % DAY
  {
  }

  lemma MidnightAscends(a: int, b: int)
    requires a <= b
    ensures Midnight(a) <= Midnight(b) && (a < b ==> Midnight(a) + DAY <= Midnight(b))
  {
  }

  lemma GridAscends(cal: Calendar, b: Bucket, i: int, j: int)
    requires Regular(cal) && i < j
    ensures Grid(cal, b, i) < Grid(cal, b, j)
  {
    match b
    case Hour =>
    case Day =>
    case Month =>
      MonthsAscend(cal, i, j);
      MidnightAscends(cal(i), cal(j));
    case Year =>
      MonthsAscend(cal, 12 * i, 12 * j);
      MidnightAscends(cal(12 * i), cal(12 * j));
  }

  /** Every instant lies in its bucket. */
  lemma InCell(cal: Calendar, b: Bucket, t: int)
    requires Regular(cal)
    ensures Grid(cal, b, Index(cal, b, t)) <= t < Grid(cal, b, Index(cal, b, t) + 1)
  {
    match b
    case Hour =>
    case Day =>
    case Month =>
      DayBounds(t);
      MidnightAscends(cal(MonthOf(cal, DayOf(t))), DayOf(t));
      MidnightAscends(DayOf(t) + 1, cal(MonthOf(cal, DayOf(t)) + 1));
    case Year =>
      var k := MonthOf(cal, DayOf(t));
      DayBounds(t);
      MonthsAscend(cal, 12 * (k / 12), k);
      MonthsAscend(cal, k + 1, 12 * (k / 12 + 1));
      MidnightAscends(cal(12 * (k / 12)), DayOf(t));
      MidnightAscends(DayOf(t) + 1, cal(12 * (k / 12 + 1)));
  }

  lemma CellIsUnique(cal: Calendar, b: Bucket, t: int, i: int)
    requires Regular(cal) && Grid(cal, b, i) <= t < Grid(cal, b, i + 1)
    ensures Index(cal, b, t) == i
  {
    InCell(cal, b, t);
    var k := Index(cal, b, t);
    if k < i && k + 1 < i { GridAscends(cal, b, k + 1, i); }
    if k > i && i + 1 < k { GridAscends(cal, b, i + 1, k); }
  }

  // ---------------------------------------------------- floor and next step

  /** floorBucket: minutes off, then hours, then the day of the month, then the month. */
  function FloorBucket(cal: Calendar, b: Bucket, t: int): int
    requires Regular(cal)
  {
    var hour := t - t % HOUR;
    if b == Hour then hour
    else
      var day := hour - hour % DAY;
      if b == Day then day
      else
        var first := Midnight(cal(MonthOf(cal, DayOf(day))));
        if b == Month then first else Midnight(cal(12 * (MonthOf(cal, DayOf(first)) / 12)))
  }

  /** nextBucket, which keeps whatever lies below the stepped field. */
  function NextBucket(cal: Calendar, b: Bucket, t: int): int
    requires Regular(cal)
  {
    match b
    case Hour => t + HOUR
    case Day => t + DAY
    case Month => t + Midnight(cal(MonthOf(cal, DayOf(t)) + 1)) - Midnight(cal(MonthOf(cal, DayOf(t))))
    case Year => t + Midnight(cal(MonthOf(cal, DayOf(t)) + 12)) - Midnight(cal(MonthOf(cal, DayOf(t))))
  }

  lemma MidnightIsDay(day: int)
    ensures DayOf(Midnight(day)) == day
  {
    Quotient((day - EPOCH) * DAY, DAY, day - EPOCH, 0);
  }

  lemma SameDay(t: int)
    ensures DayOf((t - t % HOUR) - (t - t % HOUR) % DAY) == DayOf(t)
    ensures (t - t % HOUR) - (t - t % HOUR) % DAY == t - t % DAY
  {
    var h := t - t % HOUR;
    assert h % HOUR == 0;
    Quotient(h, DAY, t / DAY, t % DAY - t % HOUR) by {
      assert t % DAY - t % HOUR >= 0 by { HourWithinDay(t); }
    }
    DayBounds(t);
    MidnightIsDay(DayOf(t));
  }

  lemma HourWithinDay(t: int)
    ensures (t % DAY) % HOUR == t % HOUR && t % DAY >= t % HOUR
  {
    var d := t / DAY;
    assert t == d * DAY + t % DAY;
    Quotient(t, HOUR, 24 * d + (t % DAY) / HOUR, (t % DAY) % HOUR);
  }

  /** Flooring lands on the start of the bucket. */
  lemma FloorIsGrid(cal: Calendar, b: Bucket, t: int)
    requires Regular(cal)
    ensures FloorBucket(cal, b, t) == Grid(cal, b, Index(cal, b, t))
  {
    SameDay(t);
    DayBounds(t);
    if b == Month || b == Year {
      MidnightIsDay(cal(MonthOf(cal, DayOf(t))));
      assert MonthFits(cal, MonthOf(cal, DayOf(t)));
      MonthIs(cal, cal(MonthOf(cal, DayOf(t))), MonthOf(cal, DayOf(t)));
    }
  }

  lemma NextIsGrid(cal: Calendar, b: Bucket, i: int)
    requires Regular(cal)
    ensures NextBucket(cal, b, Grid(cal, b, i)) == Grid(cal, b, i + 1)
  {
    if b == Month {
      MidnightIsDay(cal(i));
      assert MonthFits(cal, i);
      MonthIs(cal, cal(i), i);
    } else if b == Year {
      MidnightIsDay(cal(12 * i));
      assert MonthFits(cal, 12 * i);
      MonthIs(cal, cal(12 * i), 12 * i);
    }
  }

  lemma GridSteps(cal: Calendar, b: Bucket, i: int)
    requires Regular(cal)
    ensures NextBucket(cal, b, Grid(cal, b, i)) == Grid(cal, b, i + 1) > Grid(cal, b, i)
  {
    NextIsGrid(cal, b, i);
    GridAscends(cal, b, i, i + 1);
  }

  // ------------------------------------------------------------ enumerating

  predicate StrictlyIncreasing(keys: seq<int>) { forall i, j :: 0 <= i < j < |keys| ==> keys[i] < keys[j] }

  /**
   * bucketKeys: consecutive bucket starts, strictly increasing, such that every
   * instant of the window floors to exactly one of them.
   */
  method BucketKeys(cal: Calendar, b: Bucket, from: int, until: int) returns (keys: seq<int>)
    requires Regular(cal) && from < until
    ensures StrictlyIncreasing(keys)
    ensures forall t :: from <= t < until ==> FloorBucket(cal, b, t) in keys
    ensures forall k :: 0 <= k < |keys| ==> keys[k] < until && FloorBucket(cal, b, keys[k]) == keys[k]
    ensures keys != [] && keys[0] == FloorBucket(cal, b, from)
  {
    keys := [];
    ghost var first := Index(cal, b, from);
    FirstKey(cal, b, from);
    var cursor := FloorBucket(cal, b, from);
    while cursor < until
      invariant Starts(cal, b, first, keys, cursor) && Below(keys, until)
      invariant cursor >= until ==> keys != []
      decreases until - cursor
    {
      StartsGrow(cal, b, first, keys, cursor);
      cursor, keys := NextBucket(cal, b, cursor), keys + [cursor];
    }
    KeysAreStarts(cal, b, first, keys, cursor);
    KeysCover(cal, b, from, until, keys, cursor);
  }

  /** The keys are the starts of consecutive buckets, and next is the start of the one after them. */
  ghost predicate Starts(cal: Calendar, b: Bucket, first: int, keys: seq<int>, next: int) {
    next == Grid(cal, b, first + |keys|) && forall k :: 0 <= k < |keys| ==> keys[k] == Grid(cal, b, first + k)
  }

  predicate Below(keys: seq<int>, until: int) { forall k :: 0 <= k < |keys| ==> keys[k] < until }

  lemma StartsGrow(cal: Calendar, b: Bucket, first: int, keys: seq<int>, next: int)
    requires Regular(cal) && Starts(cal, b, first, keys, next)
    ensures NextBucket(cal, b, next) > next && Starts(cal, b, first, keys + [next], NextBucket(cal, b, next))
  {
    GridSteps(cal, b, first + |keys|);
  }

  lemma FirstKey(cal: Calendar, b: Bucket, from: int)
    requires Regular(cal)
    ensures FloorBucket(cal, b, from) == Grid(cal, b, Index(cal, b, from)) <= from
  {
    FloorIsGrid(cal, b, from);
    InCell(cal, b, from);
  }

  lemma KeysAreStarts(cal: Calendar, b: Bucket, first: int, keys: seq<int>, next: int)
    requires Regular(cal) && Starts(cal, b, first, keys, next)
    ensures StrictlyIncreasing(keys) && forall k :: 0 <= k < |keys| ==> FloorBucket(cal, b, keys[k]) == keys[k]
    ensures keys != [] ==> keys[0] == Grid(cal, b, first)
  {
    forall j, k | 0 <= j < k < |keys| ensures keys[j] < keys[k] { GridAscends(cal, b, first + j, first + k); }
    forall k | 0 <= k < |keys| ensures FloorBucket(cal, b, keys[k]) == keys[k] {
      GridAscends(cal, b, first + k, first + k + 1);
      CellIsUnique(cal, b, keys[k], first + k);
      FloorIsGrid(cal, b, keys[k]);
    }
  }

  lemma KeysCover(cal: Calendar, b: Bucket, from: int, until: int, keys: seq<int>, next: int)
    requires Regular(cal) && Starts(cal, b, Index(cal, b, from), keys, next) && next >= until
    ensures forall t :: from <= t < until ==> FloorBucket(cal, b, t) in keys
  {
    forall t | from <= t < until ensures FloorBucket(cal, b, t) in keys {
      KeyIsThere(cal, b, from, until, keys, Index(cal, b, from) + |keys|, t);
    }
  }

  lemma KeyIsThere(cal: Calendar, b: Bucket, from: int, until: int, keys: seq<int>, end: int, t: int)
    requires Regular(cal) && from <= t < until && end - Index(cal, b, from) == |keys| && Grid(cal, b, end) >= until
    requires forall k :: 0 <= k < |keys| ==> keys[k] == Grid(cal, b, Index(cal, b, from) + k)
    ensures FloorBucket(cal, b, t) in keys
  {
    FloorIsGrid(cal, b, t);
    InCell(cal, b, t);
    InCell(cal, b, from);
    var i, first := Index(cal, b, t), Index(cal, b, from);
    if i < first { if i + 1 < first { GridAscends(cal, b, i + 1, first); } }
    if i >= end { if end < i { GridAscends(cal, b, end, i); } }
    assert keys[i - first] == Grid(cal, b, i);
  }
}
