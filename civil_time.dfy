/**
 * Millisecond time stamps, calendar days and the integer arithmetic the app
 * performs on them.
 *
 * A time stamp is a count of milliseconds on the local wall clock (the zone's
 * fixed offset already added), so local midnight falls on every multiple of
 * DAY.  Kotlin `Long` values are unbounded here; the 32-bit `Int` the app
 * converts day counts to is modelled by `Int32` and `ToInt32`.
 */
module CivilTime {

  /** Milliseconds in a day, `1000L * 60 * 60 * 24`. */
  const DAY: int := 86_400_000

  const INT32_MIN: int := -0x8000_0000
  const INT32_MAX: int := 0x7FFF_FFFF

  /** Kotlin `Int`. */
  type Int32 = x: int | INT32_MIN <= x <= INT32_MAX

  predicate IsInt32(x: int) { INT32_MIN <= x <= INT32_MAX }

  /** Kotlin `Long.toInt()`: keeps the low 32 bits, read as two's complement. */
  function ToInt32(x: int): (r: Int32)
    ensures IsInt32(x) ==> r == x
  {
    (x - INT32_MIN) % 0x1_0000_0000 + INT32_MIN
  }

  /** `toInt()` changes its argument by a multiple of 2^32 and nothing else. */
  lemma ToInt32Wraps(x: int)
    ensures (ToInt32(x) - x) % 0x1_0000_0000 == 0
    ensures ToInt32(x + 0x1_0000_0000) == ToInt32(x)
  {
  }

  /**
   * Kotlin/Java integer division, which truncates toward zero (Dafny's `/` is
   * Euclidean): the quotient takes the dividend's sign, and a dividend less
   * than one divisor from 0 gives 0 on both sides of it.
   */
  function TruncDiv(a: int, b: int): (q: int)
    requires b > 0
    ensures (a >= 0 ==> q >= 0) && (a <= 0 ==> q <= 0)
    ensures -b < a < b ==> q == 0
  {
    if a >= 0 then a / b else -((-a) / b)
  }

  /**
   * The quotient rounds toward zero: `q * b` lies between 0 and `a`, less
   * than one `b` away from `a`, and the remainder takes `a`'s sign.
   */
  lemma TruncDivTowardZero(a: int, b: int)
    requires b > 0
    ensures var q := TruncDiv(a, b);
      && (a >= 0 ==> 0 <= q * b <= a < q * b + b)
      && (a < 0 ==> q * b - b < a <= q * b <= 0)
  {
    var q := TruncDiv(a, b);
    if a >= 0 {
      var m := a % b;
      assert q == a / b;
      assert a == q * b + m && 0 <= m < b;
      assert q * b >= 0;
    } else {
      var p, m := (-a) / b, (-a) % b;
      assert -a == p * b + m && 0 <= m < b;
      assert p >= 0 && p * b >= 0;
      assert q == -p;
      assert q * b == -(p * b);
    }
  }

  /** The calendar day a time stamp falls on, counted from 1970-01-01. */
  function DayOf(t: int): int { t / DAY }

  /** Milliseconds since the local midnight that starts `t`'s day. */
  function TimeOfDay(t: int): (r: int)
    ensures 0 <= r < DAY
  {
    t % DAY
  }

  /**
   * A `Calendar` set to `t` after `set(HOUR_OF_DAY, 0)`, `set(MINUTE, 0)`,
   * `set(SECOND, 0)` and `set(MILLISECOND, 0)`: the local midnight on or
   * before `t`.
   */
  function Midnight(t: int): (m: int)
    ensures m <= t < m + DAY
    ensures m == DayOf(t) * DAY
    ensures m % DAY == 0
  {
    t - t % DAY
  }

  /** `Midnight(t)` is the unique multiple of DAY within a day before `t`. */
  lemma MidnightUnique(t: int, k: int)
    requires k * DAY <= t < k * DAY + DAY
    ensures Midnight(t) == k * DAY && DayOf(t) == k
  {
    DayQuotient(t, k);
  }

  /** Division by DAY is determined by the bracketing multiples. */
  lemma DayQuotient(a: int, q: int)
    requires q * DAY <= a < q * DAY + DAY
    ensures a / DAY == q
  {
  }

  /**
   * The day difference Kotlin computes between a midnight `k` days after
   * `now`'s and `now` itself: truncation rounds a part-day toward zero, so a
   * positive `k` loses one day as soon as `now` is past midnight.
   */
  lemma TruncDivDayOffset(k: int, r: int)
    requires 0 <= r < DAY
    ensures TruncDiv(k * DAY - r, DAY) == if k >= 1 && r > 0 then k - 1 else k
  {
    var a := k * DAY - r;
    if k >= 1 && r > 0 {
      DayQuotient(a, k - 1);
    } else if k >= 1 {
      DayQuotient(a, k);
    } else {
      DayQuotient(-a, -k);
    }
  }

  /** Calendar `add(DAY_OF_YEAR, n)` under a fixed offset moves a midnight by whole days. */
  lemma MidnightPlusDays(t: int, n: int)
    ensures Midnight(t) + n * DAY == (DayOf(t) + n) * DAY
    ensures Midnight(Midnight(t) + n * DAY) == Midnight(t) + n * DAY
  {
    MidnightUnique(Midnight(t) + n * DAY, DayOf(t) + n);
  }

  // ---------------------------------------------------------------------
  // Civil (proleptic Gregorian) dates
  // ---------------------------------------------------------------------

  /** A calendar date as the app's `dd/MM/yyyy` strings denote it. */
  datatype CivilDate = CivilDate(year: int, month: int, day: int)

  predicate IsLeapYear(y: int) {
    y % 4 == 0 && (y % 100 != 0 || y % 400 == 0)
  }

  function DaysInMonth(y: int, m: int): (n: int)
    requires 1 <= m <= 12
    ensures 28 <= n <= 31
  {
    if m == 2 then (if IsLeapYear(y) then 29 else 28)
    else if m == 4 || m == 6 || m == 9 || m == 11 then 30
    else 31
  }

  /** A real date with a year a four-digit `yyyy` field can spell (0001 to 9999). */
  predicate ValidDate(d: CivilDate) {
    1 <= d.year <= 9999 && 1 <= d.month <= 12 && 1 <= d.day <= DaysInMonth(d.year, d.month)
  }

  /** Days from 0001-01-01 to the first of January of year `y`. */
  function DaysBeforeYear(y: int): int
    requires y >= 1
  {
    var p := y - 1;
    365 * p + p / 4 - p / 100 + p / 400
  }

  /** Days from the first of January to the first of month `m` of year `y`. */
  function DaysBeforeMonth(y: int, m: int): (n: int)
    requires 1 <= m <= 12
    ensures 0 <= n <= 335
  {
    var table := [0, 31, 59, 90, 120, 151, 181, 212, 243, 273, 304, 334];
    table[m - 1] + (if m > 2 && IsLeapYear(y) then 1 else 0)
  }

  /** Days from 1970-01-01 (day 0) to the date; the midnight starting it is `DayNumber(d) * DAY`. */
  function DayNumber(d: CivilDate): int
    requires ValidDate(d)
  {
    DaysBeforeYear(d.year) + DaysBeforeMonth(d.year, d.month) + d.day - 1 - 719_162
  }

  /**
   * Day numbers count from the epoch of `System.currentTimeMillis()`:
   * 1970-01-01 is day 0, and 2000-03-01 (after the 400-year leap day) is
   * day 11017.
   */
  lemma DayNumberEpoch()
    ensures ValidDate(CivilDate(1970, 1, 1)) && DayNumber(CivilDate(1970, 1, 1)) == 0
    ensures ValidDate(CivilDate(2000, 3, 1)) && DayNumber(CivilDate(2000, 3, 1)) == 11_017
  {
  }

  /** The calendar date after `d`. */
  function NextDate(d: CivilDate): (n: CivilDate)
    requires ValidDate(d)
    ensures n.year <= 9999 ==> ValidDate(n)
  {
    if d.day < DaysInMonth(d.year, d.month) then CivilDate(d.year, d.month, d.day + 1)
    else if d.month < 12 then CivilDate(d.year, d.month + 1, 1)
    else CivilDate(d.year + 1, 1, 1)
  }

  lemma YearLength(y: int)
    requires y >= 1
    ensures DaysBeforeYear(y + 1) == DaysBeforeYear(y) + (if IsLeapYear(y) then 366 else 365)
  {
    var p := y - 1;
    assert y / 4 == p / 4 + (if y % 4 == 0 then 1 else 0);
    assert y / 100 == p / 100 + (if y % 100 == 0 then 1 else 0);
    assert y / 400 == p / 400 + (if y % 400 == 0 then 1 else 0);
  }

  /** Consecutive calendar dates have consecutive day numbers: the midnights are exactly DAY apart. */
  lemma NextDateIsNextDay(d: CivilDate)
    requires ValidDate(d) && d.year < 9999
    ensures ValidDate(NextDate(d)) && DayNumber(NextDate(d)) == DayNumber(d) + 1
  {
    if d.day == DaysInMonth(d.year, d.month) && d.month == 12 {
      YearLength(d.year);
    }
  }
}
