/**
 The proleptic Gregorian calendar in UTC, as gmtime_r shows it: days are counted from 1970-01-01.
 */
module Calendar {
  import opened Shared

  predicate IsLeap(y: int) { y % 4 == 0 && (y % 100 != 0 || y % 400 == 0) }

  function YearLength(y: int): int { if IsLeap(y) then 366 else 365 }

  /** Leap years up to and including y, counted from year 0. */
  function Leaps(y: int): int { y / 4 - y / 100 + y / 400 }

  /** The day number of January 1st. */
  function YearStart(y: int): int { 365 * (y - 1970) + Leaps(y - 1) - Leaps(1969) }

  function MonthLength(y: int, m: int): int {
    if m == 2 then (if IsLeap(y) then 29 else 28)
    else if m == 4 || m == 6 || m == 9 || m == 11 then 30
    else 31
  }

  /** Days of the year before month m. */
  function MonthStart(y: int, m: int): int
    requires 1 <= m <= 13
    decreases m
  {
    if m == 1 then 0 else MonthStart(y, m - 1) + MonthLength(y, m - 1)
  }

  datatype Date = Date(y: int, m: int, d: int)

  predicate IsDate(x: Date) { 1 <= x.m <= 12 && 1 <= x.d <= MonthLength(x.y, x.m) }

  function DayOf(x: Date): int
    requires IsDate(x)
  {
    YearStart(x.y) + MonthStart(x.y, x.m) + x.d - 1
  }

  /** 0 is Sunday; the epoch was a Thursday. */
  function Weekday(day: int): int { (day + 4) % 7 }

  const BEFORE := [0, 31, 59, 90, 120, 151, 181, 212, 243, 273, 304, 334, 365]

  /** The days of a year before each month, and before the next year. */
  lemma {:induction false} MonthTable(y: int, m: int)
    requires 1 <= m <= 13
    ensures MonthStart(y, m) == BEFORE[m - 1] + if IsLeap(y) && m > 2 then 1 else 0
    decreases m
  {
    if m > 1 { MonthTable(y, m - 1); }
  }

  /** The day behind a date. */
  function Tomorrow(x: Date): Date
    requires IsDate(x)
  {
    if x.d < MonthLength(x.y, x.m) then Date(x.y, x.m, x.d + 1)
    else if x.m < 12 then Date(x.y, x.m + 1, 1)
    else Date(x.y + 1, 1, 1)
  }

  /** Days are counted one by one, */
  lemma TomorrowCounts(x: Date)
    requires IsDate(x)
    ensures IsDate(Tomorrow(x)) && DayOf(Tomorrow(x)) == DayOf(x) + 1
  {
    if x.d == MonthLength(x.y, x.m) {
      assert MonthStart(x.y, x.m + 1) == MonthStart(x.y, x.m) + MonthLength(x.y, x.m);
      if x.m == 12 {
        MonthsFill(x.y);
        YearStep(x.y);
      }
    }
  }

  /** from the first of January 1970, a Thursday. */
  lemma Epoch()
    ensures DayOf(Date(1970, 1, 1)) == 0 && Weekday(0) == 4
  {
  }

  lemma NextWeekday(day: int)
    ensures Weekday(day + 1) == if Weekday(day) == 6 then 0 else Weekday(day) + 1
  {
    var q, r := (day + 4) / 7, (day + 4) % 7;
    if r == 6 { Quotient(day + 5, 7, q + 1, 0); } else { Quotient(day + 5, 7, q, r + 1); }
  }

  // ---- every day has exactly one date ----

  lemma NextLeaps(y: int)
    ensures Leaps(y) == Leaps(y - 1) + if IsLeap(y) then 1 else 0
  {
    NextQuotient(y, 4);
    NextQuotient(y, 100);
    NextQuotient(y, 400);
  }

  lemma NextQuotient(y: int, k: int)
    requires k > 1
    ensures y / k == (y - 1) / k + if y % k == 0 then 1 else 0
  {
    var q, r := y / k, y % k;
    assert y == k * q + r;
    if r == 0 {
      assert y - 1 == k * (q - 1) + (k - 1);
      Quotient(y - 1, k, q - 1, k - 1);
    } else {
      Quotient(y - 1, k, q, r - 1);
    }
  }

  lemma YearStep(y: int)
    ensures YearStart(y + 1) == YearStart(y) + YearLength(y)
  {
    NextLeaps(y);
  }

  lemma {:induction false} YearsApart(y: int, z: int)
    requires y <= z
    ensures YearStart(z) >= YearStart(y) + 365 * (z - y)
    decreases z - y
  {
    if y < z {
      YearStep(z - 1);
      YearsApart(y, z - 1);
    }
  }

  predicate InYear(day: int, y: int) { YearStart(y) <= day < YearStart(y + 1) }

  /** Some year has the day. */
  lemma {:induction false} HasYear(day: int) returns (y: int)
    ensures InYear(day, y)
    decreases if day < 0 then -day else day
  {
    if day == 0 {
      y := 1970;
      YearStep(1970);
    } else if day > 0 {
      y := HasYear(day - 1);
      YearStep(y + 1);
      if day == YearStart(y + 1) { y := y + 1; }
    } else {
      y := HasYear(day + 1);
      YearStep(y - 1);
      if day < YearStart(y) { y := y - 1; }
    }
  }

  lemma OneYear(day: int, y: int, z: int)
    requires InYear(day, y) && InYear(day, z)
    ensures y == z
  {
    if y < z { YearsApart(y + 1, z); } else if z < y { YearsApart(z + 1, y); }
  }

  lemma {:induction false} MonthsUp(y: int, m: int, n: int)
    requires 1 <= m <= n <= 13
    ensures MonthStart(y, n) >= MonthStart(y, m)
    decreases n - m
  {
    if m < n { MonthsUp(y, m, n - 1); }
  }

  lemma MonthsFill(y: int)
    ensures MonthStart(y, 13) == YearLength(y)
  {
    var b := MonthLength(y, 2);
    assert MonthStart(y, 3) == 31 + b;
    assert MonthStart(y, 5) == 31 + b + 61;
    assert MonthStart(y, 7) == 31 + b + 122;
    assert MonthStart(y, 9) == 31 + b + 184;
    assert MonthStart(y, 11) == 31 + b + 245;
  }

  lemma {:induction false} HasMonth(y: int, n: int, m: int) returns (k: int)
    requires 1 <= m <= 12 && 0 <= n < MonthStart(y, m + 1)
    ensures 1 <= k <= 12 && MonthStart(y, k) <= n < MonthStart(y, k + 1)
    decreases m
  {
    if n >= MonthStart(y, m) { k := m; } else { k := HasMonth(y, n, m - 1); }
  }

  /** Every day is the day of a date. */
  lemma HasDate(day: int) returns (x: Date)
    ensures IsDate(x) && DayOf(x) == day
  {
    var y := HasYear(day);
    MonthsFill(y);
    YearStep(y);
    var n := day - YearStart(y);
    var m := HasMonth(y, n, 12);
    x := Date(y, m, n - MonthStart(y, m) + 1);
  }

  lemma DateInYear(x: Date)
    requires IsDate(x)
    ensures InYear(DayOf(x), x.y)
  {
    MonthsFill(x.y);
    YearStep(x.y);
    MonthsUp(x.y, x.m + 1, 13);
    MonthsUp(x.y, 1, x.m);
  }

  /** Two dates of one day are the same. */
  lemma OneDate(x: Date, z: Date)
    requires IsDate(x) && IsDate(z) && DayOf(x) == DayOf(z)
    ensures x == z
  {
    DateInYear(x);
    DateInYear(z);
    OneYear(DayOf(x), x.y, z.y);
    OneMonth(x.y, DayOf(x) - YearStart(x.y), x.m, z.m);
  }

  lemma OneMonth(y: int, n: int, m: int, k: int)
    requires 1 <= m <= 12 && MonthStart(y, m) <= n < MonthStart(y, m + 1)
    requires 1 <= k <= 12 && MonthStart(y, k) <= n < MonthStart(y, k + 1)
    ensures m == k
  {
    if m < k { MonthsUp(y, m + 1, k); } else if k < m { MonthsUp(y, k + 1, m); }
  }

  lemma DateExists(day: int)
    ensures exists x: Date :: IsDate(x) && DayOf(x) == day
  {
    var x := HasDate(day);
  }

  /** The broken-down time of gmtime_r and localtime_r; `mon` is 1 for January. */
  datatype Parts = Parts(min: int, hour: int, mday: int, mon: int, wday: int)

  type Tm = x: Parts |
    0 <= x.min < 60 && 0 <= x.hour < 24 && 1 <= x.mday < 32 && 1 <= x.mon < 13 && 0 <= x.wday < 7
    witness Parts(0, 0, 1, 1, 0)

  ghost function DateOf(day: int): (x: Date)
    ensures IsDate(x) && DayOf(x) == day
  {
    DateExists(day);
    var x: Date :| IsDate(x) && DayOf(x) == day;
    x
  }

  /** gmtime_r. */
  ghost function Utc(t: int): Tm {
    var x := DateOf(t / 86400);
    Parts(t / 60 % 60, t / 3600 % 24, x.d, x.m, Weekday(t / 86400))
  }

  // ---- leap years ----

  /** A year divisible by 4 that is not a leap year. */
  predicate Skipped(y: int) { y % 100 == 0 && y % 400 != 0 }

  /** Around a skipped leap year there is none for eight years. */
  lemma SkippedBetween(c: int)
    requires Skipped(c)
    ensures IsLeap(c - 4) && IsLeap(c + 4) && forall y | c - 4 < y < c + 4 :: !IsLeap(y)
  {
    var q := c / 100;
    Quotient(c - 4, 4, 25 * q - 1, 0);
    Quotient(c - 4, 100, q - 1, 96);
    Quotient(c + 4, 4, 25 * q + 1, 0);
    Quotient(c + 4, 100, q, 4);
    forall y | c - 4 < y < c + 4 ensures !IsLeap(y) { NotLeapNear(c, y); }
  }

  lemma NotLeapNear(c: int, y: int)
    requires Skipped(c) && c - 4 < y < c + 4
    ensures !IsLeap(y)
  {
    var q := c / 100;
    if y > c { Quotient(y, 4, 25 * q, y - c); } else if y < c { Quotient(y, 4, 25 * q - 1, y - c + 4); }
  }

  /** The next year divisible by 4 is a leap year, or is skipped. */
  lemma FourOrSkipped(y: int) returns (c: int)
    ensures if IsLeap(c) then y < c <= y + 4 && (c == y + 4 ==> IsLeap(y)) else Skipped(c) && c - 4 <= y <= c
  {
    var q, r := y / 4, y % 4;
    if r == 0 && !IsLeap(y) {
      c := y;
    } else {
      c := y - r + 4;
      assert c == 4 * (q + 1);
      Quotient(c, 4, q + 1, 0);
    }
  }

  lemma {:induction false} YearsWithin(y: int, z: int)
    requires y <= z
    ensures YearStart(z) <= YearStart(y) + 366 * (z - y)
    decreases z - y
  {
    if y < z {
      YearStep(z - 1);
      YearsWithin(y, z - 1);
    }
  }
}
