/** Day counts since the Unix epoch (src/domain/agent_session_codex.rs; the kimi and
    claude providers hold the same code). */
module Calendar {
  import opened Frames

  const I32 := 0x8000_0000
  const I64 := 0x8000_0000_0000_0000

  datatype Date = Date(year: int, month: int, day: int)

  /** A remainder is zero under truncation exactly when it is zero under floor. */
  predicate IsLeapYear(year: int) {
    (year % 4 == 0 && year % 100 != 0) || year % 400 == 0
  }

  function YearLength(year: int): int {
    if IsLeapYear(year) then 366 else 365
  }

  function MonthLength(year: int, month: int): int {
    if month == 2 then if IsLeapYear(year) then 29 else 28
    else if month == 4 || month == 6 || month == 9 || month == 11 then 30 else 31
  }

  predicate Valid(d: Date) {
    1 <= d.month <= 12 && 1 <= d.day <= MonthLength(d.year, d.month)
  }

  // ---------------------------------------------------------------------
  // The Gregorian closed form, with floor division

  /** Leap years up to and including `year`, counted from year 0. */
  function LeapsThrough(year: int): int {
    year / 4 - year / 100 + year / 400
  }

  function YearStart(year: int): int {
    365 * (year - 1970) + LeapsThrough(year - 1) - LeapsThrough(1969)
  }

  function MonthStart(year: int, month: int): int {
    (367 * month - 362) / 12 - if month <= 2 then 0 else if IsLeapYear(year) then 1 else 2
  }

  function DayNumber(d: Date): int {
    YearStart(d.year) + MonthStart(d.year, d.month) + d.day - 1
  }

  // ---------------------------------------------------------------------
  // The loops

  lemma NextYear(year: int)
    ensures YearStart(year + 1) == YearStart(year) + YearLength(year)
  {
    LeapsStep(year, 4);
    LeapsStep(year, 100);
    LeapsStep(year, 400);
  }

  lemma LeapsStep(year: int, n: int)
    requires n > 0
    ensures year / n == (year - 1) / n + if year % n == 0 then 1 else 0
  {
    var q, r := year / n, year % n;
    assert year == q * n + r;
    if r == 0 {
      assert year - 1 == (q - 1) * n + (n - 1);
      Quotient(year - 1, n, q - 1, n - 1);
    } else {
      assert year - 1 == q * n + (r - 1);
      Quotient(year - 1, n, q, r - 1);
    }
  }

  lemma Quotient(x: int, n: int, q: int, r: int)
    requires n > 0 && 0 <= r < n && x == q * n + r
    ensures x / n == q
  {
    Multiple(x / n - q, n);
    assert (x / n - q) * n == r - x % n;
  }

  lemma Multiple(d: int, n: int)
    requires n > 0
    ensures -n < d * n < n ==> d == 0
  {
    if d >= 1 {
      assert d * n >= n;
    } else if d <= -1 {
      assert d * n <= -n;
    }
  }

  lemma NextMonth(year: int, month: int)
    requires 1 <= month <= 11
    ensures MonthStart(year, month + 1) == MonthStart(year, month) + MonthLength(year, month)
  {
  }

  /** The two loops over years; every intermediate sum fits 64 bits. */
  method DaysBeforeYear(year: int) returns (days: int)
    requires -I32 <= year < I32
    ensures days == YearStart(year) && -366 * 2 * I32 <= days <= 366 * I32
  {
    days := 0;
    var y := 1970;
    while y < year
      invariant 1970 <= y && (1970 <= year ==> y <= year) && (year < 1970 ==> y == 1970)
      invariant days == YearStart(y) && 0 <= days <= 366 * (y - 1970)
    {
      NextYear(y);
      days := days + YearLength(y);
      assert days < I64;
      y := y + 1;
    }
    while y > year
      invariant year <= y && (year <= 1970 ==> y <= 1970) && (1970 < year ==> y == year)
      invariant days == YearStart(y) && (y <= 1970 ==> 366 * (y - 1970) <= days <= 0)
      invariant 1970 < y ==> 0 <= days <= 366 * (y - 1970)
    {
      y := y - 1;
      NextYear(y);
      days := days - YearLength(y);
      assert -I64 <= days;
    }
  }

  method DaysSinceUnixEpoch(year: int, month: nat, day: nat) returns (r: Option<int>)
    requires -I32 <= year < I32
    ensures r.Some? <==> 1 <= month <= 12 && 1 <= day <= 31
    ensures r.Some? ==> r.value == DayNumber(Date(year, month, day)) && -I64 <= r.value < I64
  {
    if !(1 <= month <= 12) || !(1 <= day <= 31) {
      return None;
    }
    var days := DaysBeforeYear(year);
    ghost var start := days;
    var lengths := [31, if IsLeapYear(year) then 29 else 28, 31, 30, 31, 30, 31, 31, 30, 31, 30, 31];
    for m := 1 to month
      invariant days == start + MonthStart(year, m) && 0 <= MonthStart(year, m) <= 31 * (m - 1)
    {
      NextMonth(year, m);
      days := days + lengths[m - 1];
    }
    days := days + day - 1;
    return Some(days);
  }

  // ---------------------------------------------------------------------
  // Anchors

  /** The Gregorian cycle: 97 leap years in every 400, so 146097 days. */
  lemma CycleOf400(year: int)
    ensures YearStart(year + 400) == YearStart(year) + 146097
    ensures IsLeapYear(year + 400) == IsLeapYear(year)
  {
    var y := year - 1;
    Quotient(y + 400, 4, y / 4 + 100, y % 4);
    Quotient(y + 400, 100, y / 100 + 4, y % 100);
    Quotient(y + 400, 400, y / 400 + 1, y % 400);
    Remainder(year, 4, 100);
    Remainder(year, 100, 4);
    Remainder(year, 400, 1);
  }

  lemma Remainder(x: int, n: int, k: int)
    requires n > 0
    ensures (x + n * k) % n == x % n
  {
    Quotient(x + n * k, n, x / n + k, x % n);
    assert n * k == k * n && (x / n + k) * n == x / n * n + k * n;
  }

  /** Century years are leap years only every 400 years, other years every four; and day
      zero is the first of January 1970. */
  lemma KnownDates()
    ensures DayNumber(Date(1970, 1, 1)) == 0 && DayNumber(Date(1969, 12, 31)) == -1
    ensures DayNumber(Date(2000, 2, 29)) == 11016 && DayNumber(Date(2000, 3, 1)) == 11017
    ensures DayNumber(Date(1900, 2, 28)) == -25509 && DayNumber(Date(1900, 3, 1)) == -25508
    ensures DayNumber(Date(2024, 12, 31)) == 20088 && DayNumber(Date(0, 3, 1)) == -719468
  {
  }

  // ---------------------------------------------------------------------
  // Calendar order

  function NextDay(d: Date): Date {
    if d.day < MonthLength(d.year, d.month) then d.(day := d.day + 1)
    else if d.month < 12 then Date(d.year, d.month + 1, 1)
    else Date(d.year + 1, 1, 1)
  }

  lemma NextDayIsNextNumber(d: Date)
    requires Valid(d)
    ensures Valid(NextDay(d)) && DayNumber(NextDay(d)) == DayNumber(d) + 1
  {
    if d.month < 12 {
      NextMonth(d.year, d.month);
    } else {
      NextYear(d.year);
    }
  }

  predicate Before(a: Date, b: Date) {
    a.year < b.year || (a.year == b.year && (a.month < b.month || (a.month == b.month && a.day < b.day)))
  }

  lemma {:induction false} YearsGrow(a: int, b: int)
    requires a <= b
    ensures YearStart(a) <= YearStart(b)
    decreases b - a
  {
    if b <= a {
    } else {
      YearsGrow(a, b - 1);
      NextYear(b - 1);
    }
  }

  lemma {:induction false} MonthsGrow(year: int, a: int, b: int)
    requires 1 <= a <= b <= 12
    ensures MonthStart(year, a) <= MonthStart(year, b)
    decreases b - a
  {
    if b <= a {
    } else {
      MonthsGrow(year, a, b - 1);
      NextMonth(year, b - 1);
    }
  }

  lemma WithinYear(d: Date)
    requires Valid(d)
    ensures YearStart(d.year) <= DayNumber(d) < YearStart(d.year + 1)
  {
    NextYear(d.year);
    MonthsGrow(d.year, 1, d.month);
    if d.month < 12 {
      NextMonth(d.year, d.month);
      MonthsGrow(d.year, d.month + 1, 12);
    }
  }

  /** On valid dates the count follows the calendar, so it is injective. */
  lemma NumbersFollowDates(a: Date, b: Date)
    requires Valid(a) && Valid(b)
    ensures Before(a, b) <==> DayNumber(a) < DayNumber(b)
    ensures a == b <==> DayNumber(a) == DayNumber(b)
  {
    if Before(a, b) {
      EarlierIsLess(a, b);
    } else if Before(b, a) {
      EarlierIsLess(b, a);
    }
  }

  lemma EarlierIsLess(a: Date, b: Date)
    requires Valid(a) && Valid(b) && Before(a, b)
    ensures DayNumber(a) < DayNumber(b)
  {
    if a.year < b.year {
      WithinYear(a);
      WithinYear(b);
      YearsGrow(a.year + 1, b.year);
    } else if a.month < b.month {
      NextMonth(a.year, a.month);
      MonthsGrow(a.year, a.month + 1, b.month);
    }
  }

  function PreviousDay(d: Date): Date {
    if d.day > 1 then d.(day := d.day - 1)
    else if d.month > 1 then Date(d.year, d.month - 1, MonthLength(d.year, d.month - 1))
    else Date(d.year - 1, 12, 31)
  }

  lemma PreviousDayIsPreviousNumber(d: Date)
    requires Valid(d)
    ensures Valid(PreviousDay(d)) && NextDay(PreviousDay(d)) == d
    ensures DayNumber(PreviousDay(d)) == DayNumber(d) - 1
  {
    NextDayIsNextNumber(PreviousDay(d));
  }

  /** Every number is the count of a valid date. */
  lemma {:induction false} EveryNumberIsADate(n: int) returns (d: Date)
    ensures Valid(d) && DayNumber(d) == n
    decreases if n < 0 then -n else n
  {
    if n == 0 {
      d := Date(1970, 1, 1);
    } else if n > 0 {
      var before := EveryNumberIsADate(n - 1);
      NextDayIsNextNumber(before);
      d := NextDay(before);
    } else {
      var after := EveryNumberIsADate(n + 1);
      PreviousDayIsPreviousNumber(after);
      d := PreviousDay(after);
    }
  }

  /** A day beyond its month is accepted and counted into the next month, so the
      count is not injective on everything accepted: it is exactly on valid dates. */
  lemma OverlongDayCountsOn(d: Date)
    requires 1 <= d.month <= 12 && 1 <= d.day <= 31
    ensures Valid(d) <==> forall e :: Valid(e) && DayNumber(e) == DayNumber(d) ==> e == d
    ensures !Valid(d) ==>
      var e := Date(d.year, d.month + 1, d.day - MonthLength(d.year, d.month));
      d.month < 12 && Valid(e) && DayNumber(e) == DayNumber(d)
  {
    if Valid(d) {
      forall e | Valid(e) && DayNumber(e) == DayNumber(d)
        ensures e == d
      {
        NumbersFollowDates(e, d);
      }
    } else {
      NextMonth(d.year, d.month);
      var e := Date(d.year, d.month + 1, d.day - MonthLength(d.year, d.month));
      assert Valid(e) && DayNumber(e) == DayNumber(d) && e != d;
    }
  }
}
