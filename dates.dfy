/** Calendar arithmetic behind the DocumentCloud query windows
    (add_months and iter_month_windows in BN/build_db.py). Dates are
    proleptic Gregorian (year, month, day) triples. */
module Dates {
  import opened Seqs

  datatype Date = Date(year: int, month: int, day: int)

  predicate IsLeap(y: int) {
    y % 4 == 0 && (y % 100 != 0 || y % 400 == 0)
  }

  /** calendar.monthrange(y, m)[1] */
  function DaysInMonth(y: int, m: int): (n: int)
    requires 1 <= m <= 12
    ensures 28 <= n <= 31
  {
    if m == 2 then (if IsLeap(y) then 29 else 28)
    else if m == 4 || m == 6 || m == 9 || m == 11 then 30
    else 31
  }

  predicate Valid(d: Date) {
    1 <= d.month <= 12 && 1 <= d.day <= DaysInMonth(d.year, d.month)
  }

  /** a < b on Python dates */
  predicate Before(a: Date, b: Date) {
    || a.year < b.year
    || (a.year == b.year && (a.month < b.month || (a.month == b.month && a.day < b.day)))
  }

  /** a <= b on Python dates */
  predicate NotAfter(a: Date, b: Date) {
    Before(a, b) || a == b
  }

  /** A number that grows with the calendar order; used only to prove termination. */
  function Rank(d: Date): int {
    d.year * 372 + d.month * 31 + d.day
  }

  lemma RankMonotone(a: Date, b: Date)
    requires Valid(a) && Valid(b) && Before(a, b)
    ensures Rank(a) < Rank(b)
  {
  }

  lemma RankStep(a: Date, b: Date)
    requires Valid(a) && Valid(b) && NotAfter(a, b)
    ensures Rank(a) < Rank(NextDay(b))
  {
    RankMonotone(b, NextDay(b));
    if a != b { RankMonotone(a, b); }
  }

  /** d + timedelta(days=1) */
  function NextDay(d: Date): (r: Date)
    requires Valid(d)
    ensures Valid(r) && Before(d, r)
  {
    if d.day < DaysInMonth(d.year, d.month) then Date(d.year, d.month, d.day + 1)
    else if d.month < 12 then Date(d.year, d.month + 1, 1)
    else Date(d.year + 1, 1, 1)
  }

  /** d - timedelta(days=1) */
  function PrevDay(d: Date): (r: Date)
    requires Valid(d)
    ensures Valid(r) && Before(r, d)
  {
    if d.day > 1 then Date(d.year, d.month, d.day - 1)
    else if d.month > 1 then Date(d.year, d.month - 1, DaysInMonth(d.year, d.month - 1))
    else Date(d.year - 1, 12, 31)
  }

  lemma NextOfPrev(d: Date)
    requires Valid(d)
    ensures NextDay(PrevDay(d)) == d
  {
  }

  lemma PrevOfNext(d: Date)
    requires Valid(d)
    ensures PrevDay(NextDay(d)) == d
  {
  }

  /** No date lies strictly between d and the day after it. */
  lemma NextDayIsSuccessor(a: Date, b: Date)
    requires Valid(a) && Valid(b)
    ensures Before(a, b) ==> NotAfter(NextDay(a), b)
  {
  }

  /** Every date after a is no earlier than a once stepped back a day. */
  lemma PrevDayNotBefore(a: Date, b: Date)
    requires Valid(a) && Valid(b) && Before(a, b)
    ensures NotAfter(a, PrevDay(b))
  {
    NextOfPrev(b);
    NextDayIsSuccessor(PrevDay(b), a);
  }

  /** Days in the years before y, counted from 0001-01-01 as
      date.toordinal does, extended to all years by the same formula. */
  function DaysBeforeYear(y: int): int {
    var z := y - 1;
    365 * z + z / 4 - z / 100 + z / 400
  }

  /** Days in the months of year y before month m. */
  function DaysBeforeMonth(y: int, m: int): (n: int)
    requires 1 <= m <= 12
    ensures 0 <= n <= 31 * (m - 1)
  {
    if m == 1 then 0 else DaysBeforeMonth(y, m - 1) + DaysInMonth(y, m - 1)
  }

  /** date.toordinal(): 0001-01-01 is day 1. */
  function Ordinal(d: Date): int
    requires Valid(d)
  {
    DaysBeforeYear(d.year) + DaysBeforeMonth(d.year, d.month) + d.day
  }

  /** A year has 365 days, 366 when it is a leap year. */
  lemma YearLength(y: int)
    ensures DaysBeforeYear(y + 1) - DaysBeforeYear(y) == if IsLeap(y) then 366 else 365
  {
    DivSteps(y - 1);
    Divisibility(y);
  }

  /** 400 divides only multiples of 100, and 100 only multiples of 4. */
  lemma Divisibility(y: int)
    ensures y % 400 == 0 ==> y % 100 == 0
    ensures y % 100 == 0 ==> y % 4 == 0
  {
  }

  /** Counting multiples of 4, 100 and 400: (z + 1) / k steps up exactly
      when k divides z + 1. */
  lemma DivSteps(z: int)
    ensures (z + 1) / 4 - z / 4 == if (z + 1) % 4 == 0 then 1 else 0
    ensures (z + 1) / 100 - z / 100 == if (z + 1) % 100 == 0 then 1 else 0
    ensures (z + 1) / 400 - z / 400 == if (z + 1) % 400 == 0 then 1 else 0
  {
  }

  /** December 31 is the year's last day. */
  lemma LastDayOfYear(y: int)
    ensures DaysBeforeMonth(y, 12) + 31 == if IsLeap(y) then 366 else 365
  {
    assert DaysBeforeMonth(y, 2) == 31;
    assert DaysBeforeMonth(y, 3) == 31 + DaysInMonth(y, 2);
    assert DaysBeforeMonth(y, 4) == DaysBeforeMonth(y, 3) + 31;
    assert DaysBeforeMonth(y, 5) == DaysBeforeMonth(y, 4) + 30;
    assert DaysBeforeMonth(y, 6) == DaysBeforeMonth(y, 5) + 31;
    assert DaysBeforeMonth(y, 7) == DaysBeforeMonth(y, 6) + 30;
    assert DaysBeforeMonth(y, 8) == DaysBeforeMonth(y, 7) + 31;
    assert DaysBeforeMonth(y, 9) == DaysBeforeMonth(y, 8) + 31;
    assert DaysBeforeMonth(y, 10) == DaysBeforeMonth(y, 9) + 30;
    assert DaysBeforeMonth(y, 11) == DaysBeforeMonth(y, 10) + 31;
    assert DaysBeforeMonth(y, 12) == DaysBeforeMonth(y, 11) + 30;
  }

  /** Stepping back one day lowers the ordinal by exactly one. */
  lemma OrdinalPrev(d: Date)
    requires Valid(d)
    ensures Ordinal(PrevDay(d)) == Ordinal(d) - 1
  {
    if d.day == 1 && d.month == 1 {
      YearLength(d.year - 1);
      LastDayOfYear(d.year - 1);
    }
  }

  /** Stepping forward one day raises the ordinal by exactly one. */
  lemma OrdinalNext(d: Date)
    requires Valid(d)
    ensures Ordinal(NextDay(d)) == Ordinal(d) + 1
  {
    OrdinalPrev(NextDay(d));
    PrevOfNext(d);
  }

  /** The ordinal of a date lies inside its year. */
  lemma OrdinalInYear(d: Date)
    requires Valid(d)
    ensures DaysBeforeYear(d.year) < Ordinal(d) <= DaysBeforeYear(d.year + 1)
  {
    YearLength(d.year);
    LastDayOfYear(d.year);
    DayOfYearBound(d.year, d.month);
  }

  lemma {:induction false} DayOfYearBound(y: int, m: int)
    requires 1 <= m <= 12
    ensures DaysBeforeMonth(y, m) + DaysInMonth(y, m) <= DaysBeforeMonth(y, 12) + 31
    decreases 12 - m
  {
    if m < 12 {
      DayOfYearBound(y, m + 1);
    }
  }

  lemma {:induction false} DaysBeforeYearMonotone(a: int, b: int)
    requires a <= b
    ensures DaysBeforeYear(a) <= DaysBeforeYear(b)
    decreases b - a
  {
    if a < b {
      YearLength(a);
      DaysBeforeYearMonotone(a + 1, b);
    }
  }

  /** The ordinal follows the calendar order, so two dates with the same
      ordinal are the same date. */
  lemma OrdinalOrder(a: Date, b: Date)
    requires Valid(a) && Valid(b)
    ensures Before(a, b) <==> Ordinal(a) < Ordinal(b)
    ensures Ordinal(a) == Ordinal(b) <==> a == b
  {
    if a.year < b.year {
      OrdinalInYear(a);
      OrdinalInYear(b);
      DaysBeforeYearMonotone(a.year + 1, b.year);
    } else if b.year < a.year {
      OrdinalInYear(a);
      OrdinalInYear(b);
      DaysBeforeYearMonotone(b.year + 1, a.year);
    } else if a.month < b.month {
      MonthStep(a.year, a.month, b.month);
    } else if b.month < a.month {
      MonthStep(a.year, b.month, a.month);
    }
  }

  lemma {:induction false} MonthStep(y: int, m: int, k: int)
    requires 1 <= m < k <= 12
    ensures DaysBeforeMonth(y, m) + DaysInMonth(y, m) <= DaysBeforeMonth(y, k)
    decreases k - m
  {
    if m + 1 < k {
      MonthStep(y, m + 1, k);
    }
  }

  /** d - timedelta(days=n) */
  function SubDays(d: Date, n: nat): (r: Date)
    requires Valid(d)
    ensures Valid(r)
    ensures n > 0 ==> Before(r, d)
    decreases n
  {
    if n == 0 then d
    else
      var r := SubDays(PrevDay(d), n - 1);
      assert n - 1 > 0 ==> Before(r, PrevDay(d));
      r
  }

  /** d - timedelta(days=n) is exactly n days earlier: its ordinal is n
      lower, and by OrdinalOrder no other date has that ordinal. */
  lemma {:induction false} SubDaysOrdinal(d: Date, n: nat)
    requires Valid(d)
    ensures Ordinal(SubDays(d, n)) == Ordinal(d) - n
    decreases n
  {
    if n > 0 {
      SubDaysOrdinal(PrevDay(d), n - 1);
      OrdinalPrev(d);
    }
  }

  /** Months counted from year 0: add_months shifts this by exactly `months`. */
  function MonthIndex(d: Date): int {
    d.year * 12 + d.month - 1
  }

  /** add_months: moves `months` calendar months and clamps the day to the
      length of the target month. Python's // and % by 12 floor; Dafny's
      Euclidean / and % agree with them for a positive divisor. */
  function AddMonths(d: Date, months: int): (r: Date)
    requires Valid(d)
    ensures Valid(r)
    ensures MonthIndex(r) == MonthIndex(d) + months
    ensures r.day <= d.day
    ensures r.day == d.day || r.day == DaysInMonth(r.year, r.month)
  {
    var monthIdx := d.month - 1 + months;
    var year := d.year + monthIdx / 12;
    var month := monthIdx % 12 + 1;
    var dim := DaysInMonth(year, month);
    Date(year, month, if d.day < dim then d.day else dim)
  }

  /** Moving forward at least one month lands strictly later. */
  lemma AddMonthsLater(d: Date, months: int)
    requires Valid(d) && months >= 1
    ensures Before(d, AddMonths(d, months))
  {
    var r := AddMonths(d, months);
    assert MonthIndex(r) > MonthIndex(d);
  }

  /** The end of the window that starts at `cursor`: one day before
      add_months(cursor, months), clamped to `end`. */
  function WindowEnd(cursor: Date, end: Date, months: int): (w: Date)
    requires Valid(cursor) && Valid(end) && months >= 1
    requires NotAfter(cursor, end)
    ensures Valid(w) && NotAfter(cursor, w) && NotAfter(w, end)
  {
    AddMonthsLater(cursor, months);
    PrevDayNotBefore(cursor, AddMonths(cursor, months));
    var w := PrevDay(AddMonths(cursor, months));
    if Before(end, w) then end else w
  }

  /** The windows iter_month_windows yields from `cursor` on. */
  function MonthWindows(cursor: Date, end: Date, months: int): seq<(Date, Date)>
    requires Valid(cursor) && Valid(end) && months >= 1
    decreases Rank(end) - Rank(cursor) + 1
  {
    if !NotAfter(cursor, end) then []
    else
      var w := WindowEnd(cursor, end, months);
      RankStep(cursor, w);
      [(cursor, w)] + MonthWindows(NextDay(w), end, months)
  }

  /** No window is produced exactly when start > end; otherwise the first
      window starts at the start date. */
  lemma MonthWindowsStart(start: Date, end: Date, months: int)
    requires Valid(start) && Valid(end) && months >= 1
    ensures var ws := MonthWindows(start, end, months);
      && (ws == [] <==> Before(end, start))
      && (ws != [] ==> ws[0].0 == start)
  {
  }

  lemma NotAfterTransitive(a: Date, b: Date, c: Date)
    requires NotAfter(a, b) && NotAfter(b, c)
    ensures NotAfter(a, c)
  {
  }

  /** Window x lies inside [start, end], is non-empty, and ends where
      add_months puts it (one day before add_months(x.0, months)) or at the
      end date, whichever is earlier. */
  predicate WindowOk(x: (Date, Date), start: Date, end: Date, months: int)
    requires Valid(end) && months >= 1
  {
    && Valid(x.0) && Valid(x.1)
    && NotAfter(start, x.0) && NotAfter(x.0, x.1) && NotAfter(x.1, end)
    && x.1 == WindowEnd(x.0, end, months)
  }

  /** Every window is non-empty, inside [start, end], and ends where
      add_months puts it or at the end date, whichever is earlier. */
  lemma {:induction false} MonthWindowsEach(start: Date, end: Date, months: int)
    requires Valid(start) && Valid(end) && months >= 1
    ensures forall x :: x in MonthWindows(start, end, months) ==> WindowOk(x, start, end, months)
    decreases Rank(end) - Rank(start) + 1
  {
    if NotAfter(start, end) {
      MonthWindowsUnfold(start, end, months);
      var w := WindowEnd(start, end, months);
      var next := NextDay(w);
      MonthWindowsEach(next, end, months);
      var rest := MonthWindows(next, end, months);
      assert NotAfter(start, next);
      forall x | x in [(start, w)] + rest ensures WindowOk(x, start, end, months) {
        if x in rest {
          assert WindowOk(x, next, end, months);
          NotAfterTransitive(start, next, x.0);
        }
      }
    }
  }

  /** Each window starts the day after the previous one ends. */
  predicate Chained(ws: seq<(Date, Date)>) {
    forall i :: 0 <= i < |ws| - 1 ==> Valid(ws[i].1) && ws[i + 1].0 == NextDay(ws[i].1)
  }

  /** Each window starts the day after the previous one ends, and the last
      one ends exactly at the end date. */
  lemma {:induction false} MonthWindowsContiguous(start: Date, end: Date, months: int)
    requires Valid(start) && Valid(end) && months >= 1
    ensures var ws := MonthWindows(start, end, months);
      && Chained(ws)
      && (ws != [] ==> ws[|ws| - 1].1 == end)
    decreases Rank(end) - Rank(start) + 1
  {
    if NotAfter(start, end) {
      MonthWindowsUnfold(start, end, months);
      var w := WindowEnd(start, end, months);
      var next := NextDay(w);
      MonthWindowsContiguous(next, end, months);
      MonthWindowsStart(next, end, months);
      var rest := MonthWindows(next, end, months);
      var ws := [(start, w)] + rest;
      NextDayIsSuccessor(w, end);
      assert rest == [] <==> w == end;
      forall i | 0 <= i < |ws| - 1 ensures Valid(ws[i].1) && ws[i + 1].0 == NextDay(ws[i].1) {
        if i > 0 { assert ws[i] == rest[i - 1] && ws[i + 1] == rest[i]; }
      }
      assert Chained(ws);
      if rest != [] { assert ws[|ws| - 1] == rest[|rest| - 1]; }
    }
  }

  /** One step of the iter_month_windows loop: the window at `cursor` is the
      head of the remaining windows, and the cursor strictly advances. */
  lemma MonthWindowsUnfold(cursor: Date, end: Date, months: int)
    requires Valid(cursor) && Valid(end) && months >= 1 && NotAfter(cursor, end)
    ensures var w := WindowEnd(cursor, end, months);
      && MonthWindows(cursor, end, months) == [(cursor, w)] + MonthWindows(NextDay(w), end, months)
      && Rank(cursor) <= Rank(end) && Rank(cursor) < Rank(NextDay(w))
  {
    var w := WindowEnd(cursor, end, months);
    RankStep(cursor, w);
    if cursor != end { RankMonotone(cursor, end); }
  }

  /** iter_month_windows: walks a cursor forward from the start date, one
      window of `months` months at a time, clamping the last window to the
      end date. Only callers passing months >= 1 terminate in the source. */
  method IterMonthWindows(start: Date, end: Date, months: int) returns (windows: seq<(Date, Date)>)
    requires Valid(start) && Valid(end) && months >= 1
    ensures windows == MonthWindows(start, end, months)
  {
    windows := [];
    var cursor := start;
    while NotAfter(cursor, end)
      invariant Valid(cursor)
      invariant windows + MonthWindows(cursor, end, months) == MonthWindows(start, end, months)
      decreases Rank(end) - Rank(cursor) + 1
    {
      var windowEnd := WindowEnd(cursor, end, months);
      var next := NextDay(windowEnd);
      MonthWindowsUnfold(cursor, end, months);
      ConcatAssoc(windows, [(cursor, windowEnd)], MonthWindows(next, end, months));
      windows := windows + [(cursor, windowEnd)];
      cursor := next;
    }
  }
}
