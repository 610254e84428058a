/** Where a usage window starts and ends at a given instant, in integer milliseconds since
    the epoch (UTC), and how long a window's keys are kept. */
module WindowBounds {

  const DAY_MS: nat := 86_400_000

  datatype Kind = Rolling | Calendar

  datatype Unit = Millisecond | Second | Minute | Hour | Day | Week | Month

  /** A configured window: `amount` and `unit` are the two parts of a duration such as "3h". */
  datatype Window = Window(kind: Kind, amount: nat, unit: Unit)

  datatype Interval = Interval(start: int, end: int)

  function UnitMs(unit: Unit): nat {
    match unit
    case Millisecond => 1
    case Second => 1_000
    case Minute => 60_000
    case Hour => 3_600_000
    case Day => 86_400_000
    case Week => 604_800_000
    case Month => 31 * DAY_MS
  }

  function DurationMs(w: Window): nat {
    if w.unit.Month? then 31 * DAY_MS else w.amount * UnitMs(w.unit)
  }

  /** Every write refreshes both keys of a window for this long. */
  function TtlMs(w: Window): nat {
    DurationMs(w) + DAY_MS
  }

  /** A calendar window of zero length divides by zero; weeks and months never divide. */
  predicate Defined(w: Window) {
    w.kind.Calendar? && !w.unit.Week? && !w.unit.Month? ==> w.amount > 0
  }

  // ---------- The proleptic calendar, months counted from January 1970 ----------

  predicate IsLeap(year: nat) {
    year % 4 == 0 && (year % 100 != 0 || year % 400 == 0)
  }

  function MonthLength(k: nat): (days: nat)
    ensures 28 <= days <= 31
  {
    var month := k % 12;
    if month == 1 then if IsLeap(1970 + k / 12) then 29 else 28
    else if month == 3 || month == 5 || month == 8 || month == 10 then 30
    else 31
  }

  /** The number of days before month `k`. */
  function MonthStart(k: nat): nat {
    if k == 0 then 0 else MonthStart(k - 1) + MonthLength(k - 1)
  }

  /** The month containing `day`: the first one at or after `k` that ends later. */
  function MonthFrom(day: nat, k: nat): (r: nat)
    requires MonthStart(k) <= day
    ensures MonthStart(r) <= day < MonthStart(r + 1)
    decreases day - MonthStart(k)
  {
    if day < MonthStart(k + 1) then k else MonthFrom(day, k + 1)
  }

  lemma {:induction false} MonthStartGap(j: nat, k: nat)
    requires j < k
    ensures MonthStart(j) + MonthLength(j) <= MonthStart(k)
  {
    if j + 1 < k {
      MonthStartGap(j, k - 1);
    }
  }

  /** Days 0, 1, ... of the epoch are Thursday, Friday, ...; weeks begin on Monday. */
  function Weekday(day: nat): (r: nat)
    ensures r < 7
  {
    ((day + 4) % 7 + 6) % 7
  }

  function Bounds(w: Window, now: nat): Interval
    requires Defined(w)
  {
    if w.kind.Rolling? then
      Interval(now - DurationMs(w), now)
    else if w.unit.Month? then
      var month := MonthFrom(now / DAY_MS, 0);
      Interval(MonthStart(month) * DAY_MS, MonthStart(month + 1) * DAY_MS)
    else if w.unit.Week? then
      var today := now / DAY_MS;
      var start := (today - Weekday(today)) * DAY_MS;
      Interval(start, start + 7 * DAY_MS)
    else
      var duration := DurationMs(w);
      var start := now / duration * duration;
      Interval(start, start + duration)
  }

  function Start(w: Window, now: nat): int
    requires Defined(w)
  {
    Bounds(w, now).start
  }

  // ---------- Properties ----------

  /** The same duration written in another unit is the same window length, down to single milliseconds;
      a month is as long as the longest. */
  lemma DurationsAgree(kind: Kind, n: nat)
    ensures DurationMs(Window(kind, n, Millisecond)) == n
    ensures DurationMs(Window(kind, n, Second)) == DurationMs(Window(kind, 1000 * n, Millisecond))
    ensures DurationMs(Window(kind, n, Minute)) == DurationMs(Window(kind, 60 * n, Second))
    ensures DurationMs(Window(kind, n, Hour)) == DurationMs(Window(kind, 60 * n, Minute))
    ensures DurationMs(Window(kind, n, Day)) == DurationMs(Window(kind, 24 * n, Hour))
    ensures DurationMs(Window(kind, n, Week)) == DurationMs(Window(kind, 7 * n, Day))
    ensures DurationMs(Window(kind, n, Month)) == DurationMs(Window(kind, 31, Day))
  {
  }

  lemma FloorBounds(a: nat, d: nat)
    requires d > 0
    ensures a / d * d <= a < a / d * d + d
  {
    assert a == a / d * d + a % d;
  }

  lemma MulMonotone(x: int, y: int, d: nat)
    requires x <= y
    ensures x * d <= y * d
  {
    var k: nat := y - x;
    assert y * d == (x + k) * d == x * d + k * d;
  }

  lemma MulOrder(x: int, y: int, d: nat)
    ensures x < y ==> (x + 1) * d <= y * d
    ensures x <= y ==> x * d <= y * d
  {
    if x <= y {
      MulMonotone(x, y, d);
    }
    if x < y {
      MulMonotone(x + 1, y, d);
    }
  }

  /** The multiples of `d` cut the line into cells, and an instant's quotient names its cell. */
  lemma FloorUnique(a: nat, q: int, d: nat)
    requires d > 0 && q * d <= a < q * d + d
    ensures a / d == q
  {
    FloorBounds(a, d);
    MulOrder(a / d, q, d);
    MulOrder(q, a / d, d);
  }

  lemma MonthUnique(day: nat, j: nat, k: nat)
    requires MonthStart(j) <= day < MonthStart(j + 1)
    requires MonthStart(k) <= day < MonthStart(k + 1)
    ensures j == k
  {
    if j < k {
      MonthStartGap(j, k);
    } else if k < j {
      MonthStartGap(k, j);
    }
  }

  /** The month of a day, pinned down by its neighbours' starts. */
  lemma MonthOfDay(day: nat, month: nat)
    requires MonthStart(month) <= day < MonthStart(month + 1)
    ensures MonthFrom(day, 0) == month
  {
    MonthUnique(day, month, MonthFrom(day, 0));
  }

  lemma MonthTiles(w: Window, now: nat, t: nat)
    requires w.kind.Calendar? && w.unit.Month?
    ensures Bounds(w, now).start <= now < Bounds(w, now).end <= Bounds(w, now).start + 31 * DAY_MS
    ensures Bounds(w, now).start <= t < Bounds(w, now).end ==> Bounds(w, t) == Bounds(w, now)
    ensures Bounds(w, now).end >= 0 && Bounds(w, Bounds(w, now).end).start == Bounds(w, now).end
  {
    var i := Bounds(w, now);
    var month := MonthFrom(now / DAY_MS, 0);
    hide MonthFrom;
    var next := MonthStart(month + 1);
    assert next == MonthStart(month) + MonthLength(month);
    if i.start <= t < i.end {
      MonthOfDay(t / DAY_MS, month);
    }
    MonthStartGap(month + 1, month + 2);
    MonthOfDay(next, month + 1);
    assert i.end / DAY_MS == next;
  }

  /** A day's week starts on the last multiple of seven days, counted from a Monday. */
  lemma WeekStart(day: nat)
    ensures day - Weekday(day) == (day + 3) / 7 * 7 - 3
  {
  }

  lemma SameWeek(day: nat, other: nat)
    requires day - Weekday(day) <= other < day - Weekday(day) + 7
    ensures other - Weekday(other) == day - Weekday(day)
  {
    WeekStart(day);
    WeekStart(other);
  }

  lemma WeekTiles(w: Window, now: nat, t: nat)
    requires w.kind.Calendar? && w.unit.Week?
    ensures Bounds(w, now).start <= now < Bounds(w, now).end == Bounds(w, now).start + 7 * DAY_MS
    ensures Bounds(w, now).start <= t < Bounds(w, now).end ==> Bounds(w, t) == Bounds(w, now)
    ensures Bounds(w, now).end >= 0 && Bounds(w, Bounds(w, now).end).start == Bounds(w, now).end
  {
    hide Weekday;
    var i, today := Bounds(w, now), now / DAY_MS;
    var next := today - Weekday(today) + 7;
    if i.start <= t < i.end {
      SameWeek(today, t / DAY_MS);
    }
    assert i.end == next * DAY_MS;
    NextWeek(today);
  }

  lemma NextWeek(day: nat)
    ensures var next: nat := day - Weekday(day) + 7; Weekday(next) == 0
  {
    WeekStart(day);
  }

  lemma EvenTiles(w: Window, now: nat, t: nat)
    requires Defined(w) && w.kind.Calendar? && !w.unit.Week? && !w.unit.Month?
    ensures Bounds(w, now).start <= now < Bounds(w, now).end == Bounds(w, now).start + DurationMs(w)
    ensures Bounds(w, now).start <= t < Bounds(w, now).end ==> Bounds(w, t) == Bounds(w, now)
    ensures Bounds(w, now).end >= 0 && Bounds(w, Bounds(w, now).end).start == Bounds(w, now).end
  {
    var d := DurationMs(w);
    var q := now / d;
    FloorBounds(now, d);
    if q * d <= t < q * d + d {
      FloorUnique(t, q, d);
    }
    assert (q + 1) * d == q * d + d;
    FloorUnique(q * d + d, q + 1, d);
  }

  // ---------- The calendar itself ----------

  lemma LeapYearCounts(y: nat)
    requires y > 0
    ensures y / 4 - (y - 1) / 4 == (if y % 4 == 0 then 1 else 0)
    ensures y / 100 - (y - 1) / 100 == (if y % 100 == 0 then 1 else 0)
    ensures y / 400 - (y - 1) / 400 == (if y % 400 == 0 then 1 else 0)
    ensures y % 100 == 0 ==> y % 4 == 0
    ensures y % 400 == 0 ==> y % 100 == 0
  {
  }

  /** The days before 1 January of a year, by the Gregorian rule. */
  function NewYear(y: nat): int
    requires y >= 1970
  {
    365 * (y - 1970) + (y - 1) / 4 - (y - 1) / 100 + (y - 1) / 400 - 477
  }

  /** The days before the first of a month of a year that is counted from March, so that the day that
      leap years have comes last: thirty and thirty-one days alternate, but for July and December. */
  function MarchMonth(y: nat, m: nat): int
    requires y >= 1970
  {
    NewYear(y + 1) - 306 + (153 * m + 2) / 5
  }

  /** The days before month `m` of a year that starts with January. */
  function FromNewYear(leap: bool, m: nat): nat
    requires m <= 12
  {
    if m == 0 then 0 else if m == 1 then 31 else (if leap then 60 else 59) + (153 * (m - 2) + 2) / 5
  }

  lemma MonthInYear(n: nat, m: nat)
    requires m < 12
    ensures MonthStart(12 * n + m + 1) == MonthStart(12 * n + m) +
              FromNewYear(IsLeap(1970 + n), m + 1) - FromNewYear(IsLeap(1970 + n), m)
  {
    var k := 12 * n + m;
    assert k % 12 == m && k / 12 == n;
    hide IsLeap;
  }

  lemma {:induction false} MonthOfYear(n: nat, m: nat)
    requires m <= 12
    ensures MonthStart(12 * n + m) == MonthStart(12 * n) + FromNewYear(IsLeap(1970 + n), m)
  {
    hide MonthStart, IsLeap;
    if m > 0 {
      MonthOfYear(n, m - 1);
      MonthInYear(n, m - 1);
    }
  }

  lemma LeapYearsCount(y: nat)
    requires y >= 1970
    ensures NewYear(y + 1) == NewYear(y) + if IsLeap(y) then 366 else 365
  {
    LeapYearCounts(y);
  }

  /** Months counted from January 1970 start years on the days the Gregorian rule gives. */
  lemma {:induction false} YearsAreGregorian(y: nat)
    requires y >= 1970
    ensures MonthStart(12 * (y - 1970)) == NewYear(y)
  {
    if y == 1970 {
      assert MonthStart(0) == 0;
    } else {
      var n := y - 1971;
      YearsAreGregorian(y - 1);
      MonthOfYear(n, 12);
      LeapYearsCount(y - 1);
      hide MonthStart, IsLeap, NewYear;
      assert 12 * (y - 1970) == 12 * n + 12;
    }
  }

  /** And every month starts on its day, February ending the year counted from March. */
  lemma MonthsAreGregorian(y: nat, m: nat)
    requires y >= 1970 && m < 12
    ensures MonthStart(12 * (y - 1970) + 2 + m) == MarchMonth(y, m)
  {
    hide MonthStart, IsLeap, NewYear;
    var n := y - 1970;
    YearsAreGregorian(y);
    YearsAreGregorian(y + 1);
    LeapYearsCount(y);
    MonthOfYear(n, 12);
    if m <= 10 {
      MonthOfYear(n, 2 + m);
    } else {
      MonthOfYear(n + 1, 1);
      assert 12 * n + 2 + 11 == 12 * (n + 1) + 1;
    }
    assert 12 * (y + 1 - 1970) == 12 * n + 12;
  }

  /** A calendar month's window, for an instant in month `m` of the year counted from March. */
  lemma MonthWindow(w: Window, now: nat, y: nat, m: nat)
    requires w.kind.Calendar? && w.unit.Month? && y >= 1970 && m < 12
    requires var next := if m == 11 then MarchMonth(y + 1, 0) else MarchMonth(y, m + 1);
             MarchMonth(y, m) <= now / DAY_MS < next
    ensures var next := if m == 11 then MarchMonth(y + 1, 0) else MarchMonth(y, m + 1);
            Bounds(w, now) == Interval(MarchMonth(y, m) * DAY_MS, next * DAY_MS)
  {
    var month := 12 * (y - 1970) + 2 + m;
    MonthsAreGregorian(y, m);
    if m == 11 {
      MonthsAreGregorian(y + 1, 0);
      assert 12 * (y + 1 - 1970) + 2 == month + 1;
    } else {
      MonthsAreGregorian(y, m + 1);
      assert 12 * (y - 1970) + 2 + (m + 1) == month + 1;
    }
    hide MarchMonth, MonthStart, MonthFrom;
    MonthOfDay(now / DAY_MS, month);
  }

  /** A calendar window contains its instant, every instant inside it has the very same window,
      and the next window starts where it ends. A week starts on a Monday and lasts seven days, and
      what is no week or month starts at a multiple of its duration and lasts that long. */
  lemma CalendarTiles(w: Window, now: nat, t: nat)
    requires Defined(w) && w.kind.Calendar?
    ensures Bounds(w, now).start <= now < Bounds(w, now).end
    ensures Bounds(w, now).start <= t < Bounds(w, now).end ==> Bounds(w, t) == Bounds(w, now)
    ensures Bounds(w, now).end >= 0 && Bounds(w, Bounds(w, now).end).start == Bounds(w, now).end
    ensures var i := Bounds(w, now);
            && (w.unit.Week? ==> (i.start + 3 * DAY_MS) % (7 * DAY_MS) == 0 && i.end == i.start + 7 * DAY_MS)
            && (!w.unit.Week? && !w.unit.Month? ==>
                  DurationMs(w) > 0 && i.start == now - now % DurationMs(w) && i.end == i.start + DurationMs(w))
  {
    if w.unit.Month? {
      MonthTiles(w, now, t);
    } else if w.unit.Week? {
      WeekTiles(w, now, t);
      WeekStart(now / DAY_MS);
      WeekAligned(now / DAY_MS);
    } else {
      EvenTiles(w, now, t);
      Remainder(now, DurationMs(w));
    }
  }

  lemma WeekAligned(day: nat)
    ensures ((day - Weekday(day)) * DAY_MS + 3 * DAY_MS) % (7 * DAY_MS) == 0
  {
    WeekStart(day);
    var weeks := (day + 3) / 7;
    hide Weekday;
    assert (day - Weekday(day)) * DAY_MS + 3 * DAY_MS == weeks * (7 * DAY_MS);
  }

  lemma Remainder(a: nat, d: nat)
    requires d > 0
    ensures a / d * d == a - a % d
  {
  }

  /** The start of a window never moves back. */
  lemma StartMonotone(w: Window, a: nat, b: nat)
    requires Defined(w) && a <= b
    ensures Start(w, a) <= Start(w, b)
  {
    if w.kind.Calendar? {
      CalendarTiles(w, a, b);
      CalendarTiles(w, b, a);
    }
  }

  /** The one calendar window whose retention is shorter than itself: a zero-week window is seven
      days wide, but its keys live for a day. */
  predicate Retained(w: Window) {
    w.kind.Calendar? && w.unit.Week? ==> w.amount > 0
  }

  /** An event still inside the window is no older than the window's duration. */
  lemma InWindowAge(w: Window, s: int, now: nat)
    requires Defined(w) && Retained(w) && Start(w, now) <= s
    ensures now <= s + DurationMs(w)
  {
    if w.kind.Calendar? {
      if w.unit.Month? {
        MonthTiles(w, now, now);
      } else if w.unit.Week? {
        WeekTiles(w, now, now);
        MulOrder(1, w.amount, UnitMs(Week));
      } else {
        EvenTiles(w, now, now);
      }
    }
  }

  predicate InWindow(w: Window, s: int, now: nat)
    requires Defined(w)
  {
    Start(w, now) <= s <= now
  }

  ghost predicate TtlOutlivesWindow(w: Window)
    requires Defined(w)
  {
    forall s: nat, now: nat :: InWindow(w, s, now) ==> now < s + TtlMs(w)
  }

  /** Keys written at an event's instant outlive the event's stay in the window, for exactly the
      windows other than zero calendar weeks. */
  lemma TtlOutlivesWindowIff(w: Window)
    requires Defined(w)
    ensures TtlOutlivesWindow(w) <==> Retained(w)
  {
    if Retained(w) {
      forall s: nat, now: nat | InWindow(w, s, now)
        ensures now < s + TtlMs(w)
      {
        InWindowAge(w, s, now);
      }
    } else {
      // Monday 5 January 1970, charged at midnight; its keys expire at the next midnight.
      var s, now := 4 * DAY_MS, 5 * DAY_MS;
      assert InWindow(w, s, now);
      assert now == s + TtlMs(w);
    }
  }

  /** When a window is reported to start afresh: a rolling one a whole duration from now. */
  function ResetAt(w: Window, now: nat): int
    requires Defined(w)
  {
    if w.kind.Rolling? then now + DurationMs(w) else Bounds(w, now).end
  }

  /** By then everything charged so far has left the window, except what a rolling window was
      charged at this very instant. */
  lemma ResetForgetsIff(w: Window, s: int, now: nat)
    requires Defined(w) && s <= now
    ensures now <= ResetAt(w, now)
    ensures InWindow(w, s, ResetAt(w, now)) <==> w.kind.Rolling? && s == now
  {
    if w.kind.Calendar? {
      CalendarTiles(w, now, now);
    }
  }
}
