/** Gregorian calendar arithmetic for the date-range picker.

    A date is a (year, month, day) triple with months numbered 1..12 (the
    JavaScript source numbers them 0..11 inside `Date`). The picker compares
    `Date` objects made at local midnight, i.e. by their position on the time
    line; `DayNumber` is that position counted in days, and
    `BeforeIsDayOrder` shows that it agrees with the lexicographic order of
    the triples. `JsGetDay` stands in for `Date.prototype.getDay`. */
module Dates {

  datatype Date = Date(year: int, month: int, day: int)

  /** Strict lexicographic order on (year, month, day). */
  predicate Before(a: Date, b: Date) {
    a.year < b.year ||
    (a.year == b.year && (a.month < b.month || (a.month == b.month && a.day < b.day)))
  }

  /** The Gregorian leap-year rule. */
  predicate IsLeapYear(y: int) {
    y % 4 == 0 && (y % 100 != 0 || y % 400 == 0)
  }

  function DaysInYear(y: int): (n: int)
    ensures n == 365 || n == 366
    ensures n == 366 <==> IsLeapYear(y)
  {
    if IsLeapYear(y) then 366 else 365
  }

  /** Length of month `m` of year `y`; February depends on the leap-year rule. */
  function DaysInMonth(y: int, m: int): (n: int)
    requires 1 <= m <= 12
    ensures 28 <= n <= 31
    ensures m == 2 ==> (n == 29 <==> IsLeapYear(y)) && (n == 28 <==> !IsLeapYear(y))
    ensures m != 2 ==> n >= 30
  {
    if m == 2 then (if IsLeapYear(y) then 29 else 28)
    else if m == 4 || m == 6 || m == 9 || m == 11 then 30
    else 31
  }

  predicate ValidMonth(m: int) { 1 <= m <= 12 }

  predicate ValidDate(d: Date) {
    ValidMonth(d.month) && 1 <= d.day <= DaysInMonth(d.year, d.month)
  }

  /** Days of year `y` that come before the first of month `m` (m = 13 gives the whole year). */
  function DaysBeforeMonth(y: int, m: int): (n: nat)
    requires 1 <= m <= 13
  {
    if m == 1 then 0 else DaysBeforeMonth(y, m - 1) + DaysInMonth(y, m - 1)
  }

  /** Days from 0001-01-01 to the first of January of year `y` (negative before year 1). */
  function DaysBeforeYear(y: int): int {
    365 * (y - 1) + (y - 1) / 4 - (y - 1) / 100 + (y - 1) / 400
  }

  /** Position of a date on the time line, in days since 0001-01-01. */
  function DayNumber(d: Date): int
    requires ValidMonth(d.month)
  {
    DaysBeforeYear(d.year) + DaysBeforeMonth(d.year, d.month) + d.day - 1
  }

  /** `Date.prototype.getDay`: 0 is Sunday, 1 is Monday, ..., 6 is Saturday.
      0001-01-01 of the proleptic Gregorian calendar is a Monday. */
  function JsGetDay(d: Date): (w: int)
    requires ValidMonth(d.month)
    ensures 0 <= w < 7
  {
    (DayNumber(d) + 1) % 7
  }

  /** The day after `d`, rolling over the end of a month and of a year. */
  function NextDay(d: Date): (r: Date)
    requires ValidDate(d)
    ensures ValidDate(r)
    ensures Before(d, r)
  {
    if d.day < DaysInMonth(d.year, d.month) then Date(d.year, d.month, d.day + 1)
    else if d.month < 12 then Date(d.year, d.month + 1, 1)
    else Date(d.year + 1, 1, 1)
  }

  // ---------------------------------------------------------------------
  // Lemmas

  /** The twelve months of a year add up to the year's length. */
  lemma WholeYear(y: int)
    ensures DaysBeforeMonth(y, 13) == DaysInYear(y)
  {
    var feb := DaysInMonth(y, 2);
    assert DaysBeforeMonth(y, 2) == 31;
    assert DaysBeforeMonth(y, 3) == 31 + feb;
    assert DaysBeforeMonth(y, 4) == 62 + feb;
    assert DaysBeforeMonth(y, 5) == 92 + feb;
    assert DaysBeforeMonth(y, 6) == 123 + feb;
    assert DaysBeforeMonth(y, 7) == 153 + feb;
    assert DaysBeforeMonth(y, 8) == 184 + feb;
    assert DaysBeforeMonth(y, 9) == 215 + feb;
    assert DaysBeforeMonth(y, 10) == 245 + feb;
    assert DaysBeforeMonth(y, 11) == 276 + feb;
    assert DaysBeforeMonth(y, 12) == 306 + feb;
  }

  /** The closed form for whole years adds exactly one year's length per year. */
  lemma DaysBeforeYearStep(y: int)
    ensures DaysBeforeYear(y + 1) == DaysBeforeYear(y) + DaysInYear(y)
  {
    CountStep(y, 4);
    CountStep(y, 100);
    CountStep(y, 400);
    MultipleOf(y, 400, 100);
    MultipleOf(y, 100, 4);
  }

  /** Among 1..y there is one more multiple of `k` than among 1..y-1 exactly when `k` divides `y`. */
  lemma CountStep(y: int, k: int)
    requires k == 4 || k == 100 || k == 400
    ensures y / k == (y - 1) / k + (if y % k == 0 then 1 else 0)
  {
    var q, r := (y - 1) / k, (y - 1) % k;
    assert y - 1 == k * q + r && 0 <= r < k;
    if r == k - 1 {
      assert y == k * (q + 1) + 0;
    } else {
      assert y == k * q + (r + 1);
    }
  }

  /** A multiple of `k` is a multiple of every divisor `j` of `k`. */
  lemma MultipleOf(y: int, k: int, j: int)
    requires (k == 400 && j == 100) || (k == 100 && j == 4)
    ensures y % k == 0 ==> y % j == 0
  {
    if y % k == 0 {
      var q := y / k;
      assert y == k * q;
      assert y == j * ((k / j) * q);
    }
  }

  lemma {:induction false} DaysBeforeYearMonotone(y1: int, y2: int)
    requires y1 <= y2
    ensures DaysBeforeYear(y1) <= DaysBeforeYear(y2)
    decreases y2 - y1
  {
    if y1 < y2 {
      DaysBeforeYearStep(y1);
      DaysBeforeYearMonotone(y1 + 1, y2);
    }
  }

  lemma {:induction false} DaysBeforeMonthMonotone(y: int, m1: int, m2: int)
    requires 1 <= m1 <= m2 <= 13
    ensures DaysBeforeMonth(y, m1) <= DaysBeforeMonth(y, m2)
    decreases m2 - m1
  {
    if m1 < m2 {
      DaysBeforeMonthMonotone(y, m1, m2 - 1);
    }
  }

  /** A valid date lies within its year: its day number is below the next year's first day. */
  lemma WithinYear(d: Date)
    requires ValidDate(d)
    ensures DaysBeforeYear(d.year) <= DayNumber(d) < DaysBeforeYear(d.year + 1)
  {
    DaysBeforeMonthMonotone(d.year, d.month + 1, 13);
    WholeYear(d.year);
    DaysBeforeYearStep(d.year);
  }

  /** Consecutive days have consecutive day numbers. */
  lemma DayNumberNext(d: Date)
    requires ValidDate(d)
    ensures DayNumber(NextDay(d)) == DayNumber(d) + 1
  {
    if d.day == DaysInMonth(d.year, d.month) && d.month == 12 {
      WholeYear(d.year);
      DaysBeforeYearStep(d.year);
    }
  }

  /** `getDay` advances by one, modulo a week, from one day to the next. */
  lemma WeekdayNext(d: Date)
    requires ValidDate(d)
    ensures JsGetDay(NextDay(d)) == (JsGetDay(d) + 1) % 7
  {
    DayNumberNext(d);
    ModAdd(DayNumber(d) + 1, 1);
  }

  /** The weekday agrees with ECMAScript's WeekDay(t) = (Day(t) + 4) modulo 7, which
      counts days from 1970-01-01, a Thursday; 1 March 2024 is a Friday. With
      `WeekdayNext` this pins `getDay` down on every valid date. */
  lemma WeekdayFromEpoch(d: Date)
    requires ValidDate(d)
    ensures DayNumber(Date(1970, 1, 1)) == 719162
    ensures JsGetDay(d) == (DayNumber(d) - DayNumber(Date(1970, 1, 1)) + 4) % 7
    ensures JsGetDay(Date(1970, 1, 1)) == 4 && JsGetDay(Date(2024, 3, 1)) == 5
  {
    ModPeriodic(102737, DayNumber(d) - 719158);
  }

  /** Adding whole weeks does not change a weekday. */
  lemma ModPeriodic(q: int, x: int)
    ensures (7 * q + x) % 7 == x % 7
  {
    var d, r := x / 7, x % 7;
    assert x == 7 * d + r;
    assert 7 * q + x == 7 * (q + d) + r;
  }

  /** Reducing a summand modulo 7 first does not change the sum modulo 7. */
  lemma ModAdd(a: int, b: int)
    ensures (a % 7 + b) % 7 == (a + b) % 7
  {
    var q := a / 7;
    assert a + b == 7 * q + (a % 7 + b);
    ModPeriodic(q, a % 7 + b);
  }

  /** The day number of the k-th day of a month is k - 1 days after the first. */
  lemma DayNumberInMonth(y: int, m: int, k: int)
    requires ValidMonth(m)
    ensures DayNumber(Date(y, m, k)) == DayNumber(Date(y, m, 1)) + k - 1
  {
  }

  /** The lexicographic order of valid triples is the order of their positions on
      the time line, which is how the picker compares its `Date` objects. */
  lemma BeforeIsDayOrder(a: Date, b: Date)
    requires ValidDate(a) && ValidDate(b)
    ensures Before(a, b) <==> DayNumber(a) < DayNumber(b)
    ensures a == b <==> DayNumber(a) == DayNumber(b)
  {
    if Before(a, b) {
      BeforeImpliesSmaller(a, b);
    } else if Before(b, a) {
      BeforeImpliesSmaller(b, a);
    }
  }

  lemma BeforeImpliesSmaller(a: Date, b: Date)
    requires ValidDate(a) && ValidDate(b) && Before(a, b)
    ensures DayNumber(a) < DayNumber(b)
  {
    if a.year < b.year {
      WithinYear(a);
      WithinYear(b);
      DaysBeforeYearMonotone(a.year + 1, b.year);
    } else if a.month < b.month {
      DaysBeforeMonthMonotone(a.year, a.month + 1, b.month);
    }
  }

  /** `Before` is a strict total order on date triples. */
  lemma BeforeStrictTotal(a: Date, b: Date, c: Date)
    ensures !Before(a, a)
    ensures Before(a, b) ==> !Before(b, a)
    ensures Before(a, b) && Before(b, c) ==> Before(a, c)
    ensures a == b || Before(a, b) || Before(b, a)
  {
  }
}
