/** Calendar-aligned windows (`Cal.win_*`). A window is a signed offset
    range [start, end] from a reference ("base") time, counted in one
    calendar unit; 0 is the unit that contains the base time.

    Times are naive and integer-valued. For the minute, hour, day and week
    windows a time is a tick count: microseconds since 0001-01-01T00:00:00,
    the first instant of Python's proleptic Gregorian calendar. That day was a
    Monday, so the date of a tick is `ticks / DayUs` and its weekday is that
    day number modulo 7. The month, quarter and year windows read only the
    (year, month) fields of a time and take them as a `Period`. */
module Calendar {
  import opened Results
  import Weekday

  const MinuteUs: int := 60_000_000
  const HourUs: int := 3_600_000_000
  const DayUs: int := 86_400_000_000
  const MonthsPerYear: int := 12
  const QuartersPerYear: int := 4

  // ---------------------------------------------------------------------------
  // Offsets

  /** The offset range after defaulting and ordering: `lo <= hi`. */
  datatype Span = Span(lo: int, hi: int)

  /** `end` defaults to `start`; the two are then swapped if out of order. */
  function Normalize(start: int, end: Option<int>): (s: Span)
    ensures s.lo <= s.hi
    ensures multiset{s.lo, s.hi} == multiset{start, end.GetOr(start)}
  {
    var e := end.GetOr(start);
    if start > e then Span(e, start) else Span(start, e)
  }

  /** `x` lies between `a` and `b`, whichever of the two is smaller. */
  predicate Between(x: int, a: int, b: int) {
    a <= x <= b || b <= x <= a
  }

  // ---------------------------------------------------------------------------
  // Floor division facts (Dafny's `/` and `%` floor for a positive divisor,
  // as Python's `//` and `%` do)

  lemma MulAtLeastOne(k: int, u: int)
    requires k >= 1 && u > 0
    ensures k * u >= u
  {
    assert k * u == (k - 1) * u + u;
  }

  lemma {:induction false} DivUnique(x: int, u: int, q: int, r: int)
    requires u > 0 && 0 <= r < u
    requires x == q * u + r
    ensures x / u == q && x % u == r
  {
    var q0, r0 := x / u, x % u;
    assert (q - q0) * u == r0 - r;
    if q - q0 >= 1 {
      MulAtLeastOne(q - q0, u);
    } else if q0 - q >= 1 {
      MulAtLeastOne(q0 - q, u);
    }
  }

  /** Shifting by whole units shifts the unit number by the same amount. */
  lemma {:induction false} FloorShift(x: int, k: int, u: int)
    requires u > 0
    ensures (x + k * u) / u == x / u + k
    ensures (x + k * u) % u == x % u
  {
    assert x + k * u == (x / u + k) * u + x % u;
    DivUnique(x + k * u, u, x / u + k, x % u);
  }

  /** The start of unit `a` is at or before `t` exactly when `t` lies in unit `a` or later. */
  lemma {:induction false} FloorBounds(t: int, a: int, u: int)
    requires u > 0
    ensures a * u <= t <==> a <= t / u
  {
    var q := t / u;
    assert t == q * u + t % u;
    if a <= q {
      if a < q {
        MulAtLeastOne(q - a, u);
        assert q * u - a * u == (q - a) * u;
      }
    } else {
      MulAtLeastOne(a - q, u);
      assert a * u - q * u == (a - q) * u;
    }
  }

  // ---------------------------------------------------------------------------
  // The representable range

  /** Days from 0001-01-01 through 9999-12-31, the dates `date` can hold. */
  const DaysInRange: int := 3_652_059
  const HoursInRange: int := 87_649_416
  const MinutesInRange: int := 5_258_964_960
  /** 9999-12-31T23:59:59.999999, the last instant `datetime` can hold. */
  const MaxTick: int := 315_537_897_599_999_999

  /** A tick `datetime` can represent; adding a `timedelta` that leaves this
      range raises `OverflowError`. */
  predicate InRange(t: int) {
    0 <= t <= MaxTick
  }

  type Instant = t: int | 0 <= t <= MaxTick

  /** A day number `date` can represent. */
  predicate ValidDay(d: int) {
    0 <= d < DaysInRange
  }

  /** A tick moved by `k` whole units stays representable exactly when its
      unit number does. */
  lemma {:induction false} ShiftInRange(base: int, k: int, u: int, units: int)
    requires u > 0 && units * u == MaxTick + 1
    ensures InRange(base + k * u) <==> 0 <= base / u + k < units
  {
    FloorShift(base, k, u);
    FloorBounds(base + k * u, 0, u);
    FloorBounds(base + k * u, units, u);
  }

  // ---------------------------------------------------------------------------
  // Minute, hour and day windows

  /** `datetime.replace(...)` zeroing every field below the unit. */
  function Truncate(t: int, u: int): int
    requires u > 0
  {
    t - t % u
  }

  /** Truncating `base` moved by `k` whole units gives the start of unit
      `base / u + k`. */
  lemma {:induction false} UnitStart(base: int, k: int, u: int)
    requires u > 0
    ensures Truncate(base + k * u, u) == (base / u + k) * u
  {
    FloorShift(base, k, u);
    assert base == base / u * u + base % u;
    assert (base / u + k) * u == base / u * u + k * u;
  }

  /** The instants from the start of unit `a` up to (excluding) the end of
      unit `b` are those whose unit number lies in `a..b`. */
  lemma {:induction false} UnitRange(t: int, a: int, b: int, u: int)
    requires u > 0
    ensures a * u <= t < b * u + u <==> a <= t / u <= b
  {
    FloorBounds(t, a, u);
    FloorBounds(t, b + 1, u);
    assert (b + 1) * u == b * u + u;
  }

  /** The offsets lie between `start` and `end` exactly when they lie in the
      normalised span. */
  lemma SpanBetween(x: int, start: int, end: Option<int>)
    ensures Between(x, start, end.GetOr(start)) <==> Normalize(start, end).lo <= x <= Normalize(start, end).hi
  {
  }

  /** The boundary arithmetic of an aligned window, in unit numbers. */
  lemma {:induction false} AlignedBoundaries(u: int, units: int, base: int, target: int, s: Span)
    requires u > 0 && units * u == MaxTick + 1
    ensures InRange(base + s.lo * u) <==> 0 <= base / u + s.lo < units
    ensures InRange(base + s.hi * u) <==> 0 <= base / u + s.hi < units
    ensures Truncate(base + s.lo * u, u) == (base / u + s.lo) * u
    ensures Truncate(base + s.hi * u, u) + u == (base / u + s.hi + 1) * u
    ensures InRange((base / u + s.hi + 1) * u) <==> 0 <= base / u + s.hi + 1 < units
    ensures (base / u + s.lo) * u <= target < (base / u + s.hi + 1) * u
        <==> base / u + s.lo <= target / u <= base / u + s.hi
  {
    ShiftInRange(base, s.lo, u, units);
    ShiftInRange(base, s.hi, u, units);
    UnitStart(base, s.lo, u);
    UnitStart(base, s.hi, u);
    ShiftInRange(0, base / u + s.hi + 1, u, units);
    UnitRange(target, base / u + s.lo, base / u + s.hi, u);
    assert (base / u + s.hi + 1) * u == (base / u + s.hi) * u + u;
  }

  /** Half-open window aligned to unit boundaries: from the start of the unit
      holding `base + lo` up to (excluding) the end of the unit holding
      `base + hi`, with `units` units in the representable range. The
      arithmetic overflows when the first unit precedes the range or the
      last one is the range's final unit (its end is not representable);
      otherwise the target's unit number, relative to the base's, must lie
      in the span. */
  function AlignedWindow(u: int, units: int, base: Instant, target: Instant, s: Span): (r: Result<bool>)
    requires u > 0 && units * u == MaxTick + 1 && s.lo <= s.hi
    ensures r.Failure? <==> base / u + s.lo < 0 || base / u + s.hi + 1 >= units
    ensures r.Failure? ==> r.error == Overflow
    ensures r.Success? ==> (r.value <==> s.lo <= target / u - base / u <= s.hi)
  {
    var startTime := base + s.lo * u;
    var endTime := base + s.hi * u;
    AlignedBoundaries(u, units, base, target, s);
    if !InRange(startTime) || !InRange(endTime) then Failure(Overflow)
    else
      var endBoundary := Truncate(endTime, u) + u;
      if !InRange(endBoundary) then Failure(Overflow)
      else Success(Truncate(startTime, u) <= target < endBoundary)
  }

  /** `win_minutes`. */
  function WinMinutes(base: Instant, target: Instant, start: int, end: Option<int>): (r: Result<bool>)
    ensures var s := Normalize(start, end);
      r.Failure? <==> base / MinuteUs + s.lo < 0 || base / MinuteUs + s.hi >= MinutesInRange - 1
    ensures r.Failure? ==> r.error == Overflow
    ensures r.Success? ==> (r.value <==> Between(target / MinuteUs - base / MinuteUs, start, end.GetOr(start)))
  {
    SpanBetween(target / MinuteUs - base / MinuteUs, start, end);
    AlignedWindow(MinuteUs, MinutesInRange, base, target, Normalize(start, end))
  }

  /** `win_hours`. */
  function WinHours(base: Instant, target: Instant, start: int, end: Option<int>): (r: Result<bool>)
    ensures var s := Normalize(start, end);
      r.Failure? <==> base / HourUs + s.lo < 0 || base / HourUs + s.hi >= HoursInRange - 1
    ensures r.Failure? ==> r.error == Overflow
    ensures r.Success? ==> (r.value <==> Between(target / HourUs - base / HourUs, start, end.GetOr(start)))
  {
    SpanBetween(target / HourUs - base / HourUs, start, end);
    AlignedWindow(HourUs, HoursInRange, base, target, Normalize(start, end))
  }

  /** `datetime.date()`, as a day number. */
  function DayOf(t: int): int {
    t / DayUs
  }

  /** Calendar dates compared inclusively at both ends. Only the two shifted
      instants must be representable. */
  function DateWindow(base: Instant, target: Instant, s: Span): (r: Result<bool>)
    requires s.lo <= s.hi
    ensures r.Failure? <==> !ValidDay(DayOf(base) + s.lo) || !ValidDay(DayOf(base) + s.hi)
    ensures r.Failure? ==> r.error == Overflow
    ensures r.Success? ==> (r.value <==> s.lo <= DayOf(target) - DayOf(base) <= s.hi)
  {
    var startTime := base + s.lo * DayUs;
    var endTime := base + s.hi * DayUs;
    ShiftInRange(base, s.lo, DayUs, DaysInRange);
    ShiftInRange(base, s.hi, DayUs, DaysInRange);
    FloorShift(base, s.lo, DayUs);
    FloorShift(base, s.hi, DayUs);
    if !InRange(startTime) || !InRange(endTime) then Failure(Overflow)
    else Success(DayOf(startTime) <= DayOf(target) <= DayOf(endTime))
  }

  /** `win_days`. */
  function WinDays(base: Instant, target: Instant, start: int, end: Option<int>): (r: Result<bool>)
    ensures var s := Normalize(start, end);
      r.Failure? <==> !ValidDay(DayOf(base) + s.lo) || !ValidDay(DayOf(base) + s.hi)
    ensures r.Failure? ==> r.error == Overflow
    ensures r.Success? ==> (r.value <==> Between(DayOf(target) - DayOf(base), start, end.GetOr(start)))
  {
    SpanBetween(DayOf(target) - DayOf(base), start, end);
    DateWindow(base, target, Normalize(start, end))
  }

  /** Where both are defined, the inclusive date comparison of `win_days`
      selects the same instants as a half-open window aligned to midnight,
      like the minute and hour windows; the aligned form overflows on the
      last representable day, where `win_days` does not. */
  lemma DaysAreAlignedWindows(base: Instant, target: Instant, start: int, end: Option<int>)
    ensures AlignedWindow(DayUs, DaysInRange, base, target, Normalize(start, end)).Success? ==>
      WinDays(base, target, start, end) == AlignedWindow(DayUs, DaysInRange, base, target, Normalize(start, end))
  {
  }

  /** With the target on the day before the base, `win_days(-1)` holds and
      `win_days(0)` does not. */
  lemma YesterdayIsNotToday(base: Instant, target: Instant)
    requires DayOf(target) + 1 == DayOf(base)
    ensures WinDays(base, target, -1, None) == Success(true)
    ensures WinDays(base, target, 0, None) == Success(false)
    ensures WinDays(base, target, -1, Some(0)) == Success(true)
  {
    ShiftInRange(target, 0, DayUs, DaysInRange);
    ShiftInRange(base, 0, DayUs, DaysInRange);
  }

  /** The last minute of 9999-12-31 has no representable end, so
      `win_minutes(0)` raises there whatever the target. */
  lemma LastMinuteOverflows(base: Instant, target: Instant)
    requires base >= MaxTick + 1 - MinuteUs
    ensures WinMinutes(base, target, 0, None) == Failure(Overflow)
  {
    FloorBounds(base, MinutesInRange - 1, MinuteUs);
  }

  // ---------------------------------------------------------------------------
  // Week windows

  /** `date.weekday()` of a day number: day 0 (0001-01-01) is a Monday. */
  function WeekdayOf(day: int): int {
    day % 7
  }

  /** The first day of the week holding `baseDay`, for weeks starting on
      `weekStart`: the latest day not after `baseDay` with that weekday. */
  function CurrentWeekStart(baseDay: int, weekStart: int): (ws: int)
    requires 0 <= weekStart < 7
    ensures ws <= baseDay < ws + 7
    ensures WeekdayOf(ws) == weekStart
    ensures forall d :: ws < d <= baseDay ==> WeekdayOf(d) != weekStart
    ensures ws == weekStart + 7 * ((baseDay - weekStart) / 7)
  {
    var daysSince := (WeekdayOf(baseDay) - weekStart) % 7;
    WeekStartClosedForm(baseDay, weekStart);
    baseDay - daysSince
  }

  lemma {:induction false} WeekStartClosedForm(baseDay: int, weekStart: int)
    requires 0 <= weekStart < 7
    ensures var ws := baseDay - (WeekdayOf(baseDay) - weekStart) % 7;
      && ws == weekStart + 7 * ((baseDay - weekStart) / 7)
      && WeekdayOf(ws) == weekStart
      && forall d :: ws < d <= baseDay ==> WeekdayOf(d) != weekStart
  {
    var m := (baseDay - weekStart) / 7;
    FloorShift(baseDay - weekStart, -(baseDay / 7), 7);
    assert (WeekdayOf(baseDay) - weekStart) % 7 == (baseDay - weekStart) % 7;
    var ws := baseDay - (WeekdayOf(baseDay) - weekStart) % 7;
    assert ws == weekStart + 7 * m;
    FloorShift(weekStart, m, 7);
    forall d | ws < d <= baseDay
      ensures WeekdayOf(d) != weekStart
    {
      FloorShift(d - ws, m, 7);
      assert d == (d - ws) + weekStart + 7 * m;
      FloorShift(d - ws + weekStart, m, 7);
      DivUnique(d - ws + weekStart, 7, (d - ws + weekStart) / 7, (d - ws + weekStart) % 7);
      if d - ws + weekStart < 7 {
        DivUnique(d - ws + weekStart, 7, 0, d - ws + weekStart);
      } else {
        DivUnique(d - ws + weekStart, 7, 1, d - ws + weekStart - 7);
      }
    }
  }

  /** The number of the week holding `day`, for weeks starting on `weekStart`. */
  function WeekNumber(day: int, weekStart: int): int {
    (day - weekStart) / 7
  }

  /** The week window overflows when the base's own week, or the window's
      first week, starts before day 0, or the window's last week ends after
      9999-12-31. */
  predicate WeekOverflow(baseDay: int, s: Span, weekStart: int) {
    var w := WeekNumber(baseDay, weekStart);
    w < 0 || w + s.lo < 0 || weekStart + 7 * (w + s.hi) + 6 >= DaysInRange
  }

  /** Membership once the week start day is known. */
  function WeekWindow(baseDay: int, targetDay: int, s: Span, weekStart: int): (r: Result<bool>)
    requires 0 <= weekStart < 7 && s.lo <= s.hi && ValidDay(baseDay)
    ensures r.Failure? <==> WeekOverflow(baseDay, s, weekStart)
    ensures r.Failure? ==> r.error == Overflow
    ensures r.Success? ==> (r.value <==>
      s.lo <= WeekNumber(targetDay, weekStart) - WeekNumber(baseDay, weekStart) <= s.hi)
  {
    var currentStart := CurrentWeekStart(baseDay, weekStart);
    var startWeekStart := currentStart + 7 * s.lo;
    var endWeekStart := currentStart + 7 * s.hi;
    var endWeekEnd := endWeekStart + 6;
    var w := WeekNumber(baseDay, weekStart);
    FloorBounds(targetDay - weekStart, w + s.lo, 7);
    FloorBounds(targetDay - weekStart, w + s.hi + 1, 7);
    if !ValidDay(currentStart) || !ValidDay(startWeekStart) || !ValidDay(endWeekStart) || !ValidDay(endWeekEnd) then
      Failure(Overflow)
    else
      Success(startWeekStart <= targetDay <= endWeekEnd)
  }

  /** `win_weeks`: the week start is given by name and may be rejected; the
      name is checked before any date arithmetic. */
  function WinWeeks(base: Instant, target: Instant, start: int, end: Option<int>, weekStart: string): (r: Result<bool>)
    ensures Weekday.NormalizeWeekday(weekStart).Failure? ==>
      r == Failure(Weekday.NormalizeWeekday(weekStart).error)
    ensures Weekday.NormalizeWeekday(weekStart).Success? ==>
      var d := Weekday.NormalizeWeekday(weekStart).value;
      && (r.Failure? <==> WeekOverflow(DayOf(base), Normalize(start, end), d))
      && (r.Failure? ==> r.error == Overflow)
      && (r.Success? ==> (r.value <==>
        Between(WeekNumber(DayOf(target), d) - WeekNumber(DayOf(base), d), start, end.GetOr(start))))
  {
    var s := Normalize(start, end);
    ShiftInRange(base, 0, DayUs, DaysInRange);
    match Weekday.NormalizeWeekday(weekStart)
    case Failure(e) => Failure(e)
    case Success(d) => WeekWindow(DayOf(base), DayOf(target), s, d)
  }

  /** The default week start, "monday", is never rejected and selects weekday 0. */
  lemma DefaultWeekStartIsMonday(base: Instant, target: Instant, start: int, end: Option<int>)
    ensures Weekday.NormalizeWeekday("monday") == Success(0)
    ensures WinWeeks(base, target, start, end, "monday").Failure? ==>
      WinWeeks(base, target, start, end, "monday").error == Overflow
    ensures WinWeeks(base, target, start, end, "monday").Success? ==>
      (WinWeeks(base, target, start, end, "monday").value <==>
        Between(WeekNumber(DayOf(target), 0) - WeekNumber(DayOf(base), 0), start, end.GetOr(start)))
  {
    Weekday.NamesRoundTrip(0);
  }

  /** A target exactly seven days before the base lies in last week and not
      in this week, whatever day the weeks start on, away from the first and
      last week of the calendar. */
  lemma {:induction false} LastWeekIsNotThisWeek(base: Instant, target: Instant, weekStart: string)
    requires DayOf(target) + 7 == DayOf(base)
    requires 6 <= DayOf(target) && DayOf(base) + 6 < DaysInRange
    requires Weekday.NormalizeWeekday(weekStart).Success?
    ensures WinWeeks(base, target, -1, None, weekStart) == Success(true)
    ensures WinWeeks(base, target, 0, None, weekStart) == Success(false)
  {
    var d := Weekday.NormalizeWeekday(weekStart).value;
    FloorShift(DayOf(target) - d, 1, 7);
    FloorBounds(DayOf(target) - d, 0, 7);
    FloorBounds(DayOf(base) - d, DayOf(base) / 7 + 1, 7);
  }

  /** 0001-01-01 was a Monday, so a week starting on Sunday holding it would
      begin on day -1: `win_weeks(0, "sunday")` raises for a base on that day. */
  lemma SundayWeekBeforeFirstDay(base: Instant, target: Instant)
    requires DayOf(base) == 0
    ensures WinWeeks(base, target, 0, None, "sunday") == Failure(Overflow)
  {
    Weekday.NamesRoundTrip(6);
  }

  // ---------------------------------------------------------------------------
  // Month, quarter and year windows

  /** The `unit`-th month or quarter (counted from 1) of `year`. */
  datatype Period = Period(year: int, unit: int)

  predicate ValidPeriod(p: Period, perYear: int) {
    1 <= p.unit <= perYear
  }

  /** The linear index `year * perYear + unit` the windows compare. */
  function Linear(p: Period, perYear: int): int {
    p.year * perYear + p.unit
  }

  /** The carry/borrow loops: fold an out-of-range unit number into the year. */
  method CarryIntoYear(year: int, unit: int, perYear: int) returns (p: Period)
    requires perYear > 0
    ensures ValidPeriod(p, perYear)
    ensures Linear(p, perYear) == year * perYear + unit
  {
    var y, u := year, unit;
    while u <= 0
      invariant y * perYear + u == year * perYear + unit
      decreases -u
    {
      u := u + perYear;
      y := y - 1;
    }
    while u > perYear
      invariant 1 <= u
      invariant y * perYear + u == year * perYear + unit
      decreases u
    {
      u := u - perYear;
      y := y + 1;
    }
    p := Period(y, u);
  }

  /** `win_months`: `base` and `target` hold (year, month). */
  method WinMonths(base: Period, target: Period, start: int, end: Option<int>) returns (r: bool)
    ensures r <==> Between(Linear(target, MonthsPerYear) - Linear(base, MonthsPerYear), start, end.GetOr(start))
  {
    var s := Normalize(start, end);
    var first := CarryIntoYear(base.year, base.unit + s.lo, MonthsPerYear);
    var last := CarryIntoYear(base.year, base.unit + s.hi, MonthsPerYear);
    var targetIndex := target.year * 12 + target.unit;
    r := first.year * 12 + first.unit <= targetIndex <= last.year * 12 + last.unit;
  }

  /** `(month - 1) // 3 + 1`: the quarter whose three months hold `month`. */
  function QuarterOf(month: int): (q: int)
    ensures 3 * q - 2 <= month <= 3 * q
    ensures 1 <= month <= 12 ==> 1 <= q <= 4
  {
    (month - 1) / 3 + 1
  }

  /** The (year, quarter) of a (year, month). */
  function QuarterPeriod(ym: Period): Period {
    Period(ym.year, QuarterOf(ym.unit))
  }

  /** `win_quarters`: `base` and `target` hold (year, month). */
  method WinQuarters(base: Period, target: Period, start: int, end: Option<int>) returns (r: bool)
    ensures r <==> Between(
      Linear(QuarterPeriod(target), QuartersPerYear) - Linear(QuarterPeriod(base), QuartersPerYear),
      start, end.GetOr(start))
  {
    var s := Normalize(start, end);
    var currentQuarter := (base.unit - 1) / 3 + 1;
    var first := CarryIntoYear(base.year, currentQuarter + s.lo, QuartersPerYear);
    var last := CarryIntoYear(base.year, currentQuarter + s.hi, QuartersPerYear);
    var targetQuarter := (target.unit - 1) / 3 + 1;
    var targetIndex := target.year * 4 + targetQuarter;
    r := first.year * 4 + first.unit <= targetIndex <= last.year * 4 + last.unit;
  }

  /** `win_years`. */
  function WinYears(baseYear: int, targetYear: int, start: int, end: Option<int>): (r: bool)
    ensures r <==> Between(targetYear - baseYear, start, end.GetOr(start))
  {
    var s := Normalize(start, end);
    var startYear := baseYear + s.lo;
    var endYear := baseYear + s.hi;
    startYear <= targetYear <= endYear
  }

  // ---------------------------------------------------------------------------
  // Window laws

  /** Every window over ticks gives the same answer (or the same error) for
      (a, b) and (b, a), and a single offset n is the range (n, n). The year
      window is included; the month and quarter windows are methods and get
      the same laws from their `Between` postconditions. */
  lemma WindowsOrderIndependent(base: Instant, target: Instant, baseYear: int, targetYear: int, a: int, b: int, weekStart: string)
    ensures WinMinutes(base, target, a, Some(b)) == WinMinutes(base, target, b, Some(a))
    ensures WinHours(base, target, a, Some(b)) == WinHours(base, target, b, Some(a))
    ensures WinDays(base, target, a, Some(b)) == WinDays(base, target, b, Some(a))
    ensures WinWeeks(base, target, a, Some(b), weekStart) == WinWeeks(base, target, b, Some(a), weekStart)
    ensures WinYears(baseYear, targetYear, a, Some(b)) == WinYears(baseYear, targetYear, b, Some(a))
    ensures WinMinutes(base, target, a, None) == WinMinutes(base, target, a, Some(a))
    ensures WinHours(base, target, a, None) == WinHours(base, target, a, Some(a))
    ensures WinDays(base, target, a, None) == WinDays(base, target, a, Some(a))
    ensures WinWeeks(base, target, a, None, weekStart) == WinWeeks(base, target, a, Some(a), weekStart)
    ensures WinYears(baseYear, targetYear, a, None) == WinYears(baseYear, targetYear, a, Some(a))
  {
    assert Normalize(a, Some(b)) == Normalize(b, Some(a));
    assert Normalize(a, None) == Normalize(a, Some(a));
    SameSpanSameWindows(base, target, baseYear, targetYear, a, Some(b), b, Some(a));
    SameSpanSameWindows(base, target, baseYear, targetYear, a, None, a, Some(a));
    SameSpanSameWeeks(base, target, a, Some(b), b, Some(a), weekStart);
    SameSpanSameWeeks(base, target, a, None, a, Some(a), weekStart);
  }

  /** The tick windows read their offsets only through `Normalize`. */
  lemma SameSpanSameWindows(base: Instant, target: Instant, baseYear: int, targetYear: int, a: int, e: Option<int>, b: int, f: Option<int>)
    requires Normalize(a, e) == Normalize(b, f)
    ensures WinMinutes(base, target, a, e) == WinMinutes(base, target, b, f)
    ensures WinHours(base, target, a, e) == WinHours(base, target, b, f)
    ensures WinDays(base, target, a, e) == WinDays(base, target, b, f)
    ensures WinYears(baseYear, targetYear, a, e) == WinYears(baseYear, targetYear, b, f)
  {
  }

  /** So does the week window. */
  lemma SameSpanSameWeeks(base: Instant, target: Instant, a: int, e: Option<int>, b: int, f: Option<int>, weekStart: string)
    requires Normalize(a, e) == Normalize(b, f)
    ensures WinWeeks(base, target, a, e, weekStart) == WinWeeks(base, target, b, f, weekStart)
  {
  }

  /** Reference enumeration: the unit after and before `p`. */
  function NextPeriod(p: Period, perYear: int): Period {
    if p.unit >= perYear then Period(p.year + 1, 1) else Period(p.year, p.unit + 1)
  }

  function PrevPeriod(p: Period, perYear: int): Period {
    if p.unit <= 1 then Period(p.year - 1, perYear) else Period(p.year, p.unit - 1)
  }

  /** Walk `k` units forward (or back, for negative `k`) one at a time. */
  function Step(p: Period, k: int, perYear: int): Period
    decreases if k >= 0 then k else -k
  {
    if k == 0 then p
    else if k > 0 then NextPeriod(Step(p, k - 1, perYear), perYear)
    else PrevPeriod(Step(p, k + 1, perYear), perYear)
  }

  /** One step forward or back moves the linear index by one. */
  lemma NeighbourLinear(p: Period, perYear: int)
    requires perYear > 0 && ValidPeriod(p, perYear)
    ensures ValidPeriod(NextPeriod(p, perYear), perYear)
    ensures Linear(NextPeriod(p, perYear), perYear) == Linear(p, perYear) + 1
    ensures ValidPeriod(PrevPeriod(p, perYear), perYear)
    ensures Linear(PrevPeriod(p, perYear), perYear) == Linear(p, perYear) - 1
  {
    assert (p.year + 1) * perYear == p.year * perYear + perYear;
    assert (p.year - 1) * perYear == p.year * perYear - perYear;
  }

  lemma {:induction false} StepMovesLinearIndex(p: Period, k: int, perYear: int)
    requires perYear > 0 && ValidPeriod(p, perYear)
    ensures ValidPeriod(Step(p, k, perYear), perYear)
    ensures Linear(Step(p, k, perYear), perYear) == Linear(p, perYear) + k
    decreases if k >= 0 then k else -k
  {
    if k > 0 {
      StepMovesLinearIndex(p, k - 1, perYear);
      NeighbourLinear(Step(p, k - 1, perYear), perYear);
    } else if k < 0 {
      StepMovesLinearIndex(p, k + 1, perYear);
      NeighbourLinear(Step(p, k + 1, perYear), perYear);
    }
  }

  /** A valid period is determined by its linear index. */
  lemma {:induction false} LinearInjective(p: Period, q: Period, perYear: int)
    requires perYear > 0 && ValidPeriod(p, perYear) && ValidPeriod(q, perYear)
    requires Linear(p, perYear) == Linear(q, perYear)
    ensures p == q
  {
    DivUnique(Linear(p, perYear) - 1, perYear, p.year, p.unit - 1);
    DivUnique(Linear(q, perYear) - 1, perYear, q.year, q.unit - 1);
  }

  /** The linear-index comparison agrees with walking the calendar unit by
      unit: the target is in the window exactly when some offset between
      `a` and `b` walks the base onto the target. */
  lemma {:induction false} LinearIndexMatchesEnumeration(base: Period, target: Period, a: int, b: int, perYear: int)
    requires perYear > 0 && ValidPeriod(base, perYear) && ValidPeriod(target, perYear)
    ensures Between(Linear(target, perYear) - Linear(base, perYear), a, b)
        <==> exists k :: Between(k, a, b) && Step(base, k, perYear) == target
  {
    var k0 := Linear(target, perYear) - Linear(base, perYear);
    if Between(k0, a, b) {
      StepMovesLinearIndex(base, k0, perYear);
      LinearInjective(Step(base, k0, perYear), target, perYear);
    }
    forall k | Between(k, a, b) && Step(base, k, perYear) == target
      ensures Between(k0, a, b)
    {
      StepMovesLinearIndex(base, k, perYear);
    }
  }

  /** `win_months(-1)` from a January base: the borrow loop lands on
      December of the year before, and that month is in the window. */
  method JanuaryBorrowsFromPreviousYear(y: int) returns (p: Period, r: bool)
    ensures p == Period(y - 1, 12) && r
  {
    p := CarryIntoYear(y, 0, MonthsPerYear);
    LinearInjective(p, Period(y - 1, 12), MonthsPerYear);
    r := WinMonths(Period(y, 1), Period(y - 1, 12), -1, None);
  }
}
