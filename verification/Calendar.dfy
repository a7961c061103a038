/** The proleptic Gregorian calendar from year -1 on: the years that an RFC 3339
    timestamp of years 0000 to 9999 can fall into once its offset is removed. */
module Calendar {

  predicate IsLeapYear(y: int) { y % 4 == 0 && (y % 100 != 0 || y % 400 == 0) }

  function YearLength(y: int): nat { if IsLeapYear(y) then 366 else 365 }

  function MonthLength(y: int, m: nat): (d: nat)
    requires 1 <= m <= 12
    ensures 28 <= d <= 31
  {
    if m == 2 then (if IsLeapYear(y) then 29 else 28)
    else if m == 4 || m == 6 || m == 9 || m == 11 then 30
    else 31
  }

  /** Day number of January 1st; day 0 is 0000-01-01. */
  function DaysBeforeYear(y: int): int
    requires y >= -1
    decreases y + 1
  {
    if y == -1 then -365 else DaysBeforeYear(y - 1) + YearLength(y - 1)
  }

  function DaysBeforeMonth(y: int, m: nat): nat
    requires 1 <= m <= 13
  {
    if m == 1 then 0 else DaysBeforeMonth(y, m - 1) + MonthLength(y, m - 1)
  }

  datatype Date = Date(year: int, month: nat, day: nat)

  predicate ValidDate(d: Date) {
    d.year >= -1 && 1 <= d.month <= 12 && 1 <= d.day <= MonthLength(d.year, d.month)
  }

  function DayNumber(d: Date): int
    requires ValidDate(d)
  {
    DaysBeforeYear(d.year) + DaysBeforeMonth(d.year, d.month) + d.day - 1
  }

  /** The year of day `n`, searching upward from `y`. */
  function YearOf(n: int, y: int): (r: int)
    requires y >= -1 && DaysBeforeYear(y) <= n
    ensures r >= y && DaysBeforeYear(r) <= n < DaysBeforeYear(r) + YearLength(r)
    decreases n - DaysBeforeYear(y)
  {
    if n < DaysBeforeYear(y + 1) then y else YearOf(n, y + 1)
  }

  /** The month of day `k` of year `y`, searching upward from `m`. */
  function MonthOf(y: int, k: nat, m: nat): (r: nat)
    requires 1 <= m <= 12 && DaysBeforeMonth(y, m) <= k < DaysBeforeMonth(y, 13)
    ensures 1 <= r <= 12 && DaysBeforeMonth(y, r) <= k < DaysBeforeMonth(y, r) + MonthLength(y, r)
    decreases 12 - m
  {
    if m == 12 || k < DaysBeforeMonth(y, m + 1) then m else MonthOf(y, k, m + 1)
  }

  lemma YearHasTwelveMonths(y: int)
    ensures DaysBeforeMonth(y, 13) == YearLength(y)
  {
    assert DaysBeforeMonth(y, 2) == 31;
    assert DaysBeforeMonth(y, 3) == 31 + MonthLength(y, 2);
    assert DaysBeforeMonth(y, 4) == DaysBeforeMonth(y, 3) + 31;
    assert DaysBeforeMonth(y, 6) == DaysBeforeMonth(y, 5) + 31 == DaysBeforeMonth(y, 4) + 61;
    assert DaysBeforeMonth(y, 8) == DaysBeforeMonth(y, 7) + 31 == DaysBeforeMonth(y, 6) + 61;
    assert DaysBeforeMonth(y, 10) == DaysBeforeMonth(y, 9) + 30 == DaysBeforeMonth(y, 8) + 61;
    assert DaysBeforeMonth(y, 12) == DaysBeforeMonth(y, 11) + 30 == DaysBeforeMonth(y, 10) + 61;
  }

  function DateOf(n: int): (d: Date)
    requires n >= -365
    ensures ValidDate(d) && DayNumber(d) == n
  {
    var y := YearOf(n, -1);
    YearHasTwelveMonths(y);
    var k := n - DaysBeforeYear(y);
    var m := MonthOf(y, k, 1);
    Date(y, m, k - DaysBeforeMonth(y, m) + 1)
  }

  lemma {:induction false} MonthsGrow(y: int, m: nat, r: nat)
    requires 1 <= m <= r <= 13
    ensures DaysBeforeMonth(y, m) <= DaysBeforeMonth(y, r)
    decreases r - m
  {
    if m < r {
      MonthsGrow(y, m, r - 1);
    }
  }

  lemma {:induction false} YearsGrow(y: int, z: int)
    requires -1 <= y < z
    ensures DaysBeforeYear(y) + YearLength(y) <= DaysBeforeYear(z)
    decreases z - y
  {
    if y + 1 < z {
      YearsGrow(y, z - 1);
    }
  }

  lemma InsideYear(d: Date)
    requires ValidDate(d)
    ensures DaysBeforeYear(d.year) <= DayNumber(d) < DaysBeforeYear(d.year) + YearLength(d.year)
  {
    YearHasTwelveMonths(d.year);
    MonthsGrow(d.year, d.month + 1, 13);
  }

  predicate DateLess(a: Date, b: Date) {
    a.year < b.year || (a.year == b.year && (a.month < b.month || (a.month == b.month && a.day < b.day)))
  }

  lemma EarlierDate(a: Date, b: Date)
    requires ValidDate(a) && ValidDate(b) && DateLess(a, b)
    ensures DayNumber(a) < DayNumber(b)
  {
    if a.year < b.year {
      InsideYear(a);
      InsideYear(b);
      YearsGrow(a.year, b.year);
    } else if a.month < b.month {
      MonthsGrow(a.year, a.month + 1, b.month);
    }
  }

  /** Dates compare field by field exactly as their day numbers compare. */
  lemma DateOrder(a: Date, b: Date)
    requires ValidDate(a) && ValidDate(b)
    ensures DateLess(a, b) <==> DayNumber(a) < DayNumber(b)
    ensures a == b <==> DayNumber(a) == DayNumber(b)
  {
    if DateLess(a, b) {
      EarlierDate(a, b);
    } else if DateLess(b, a) {
      EarlierDate(b, a);
    }
  }

  // ---- the calendar day by day ----

  const MONTHS: seq<nat> := [31, 28, 31, 30, 31, 30, 31, 31, 30, 31, 30, 31]

  /** Every fourth year has February 29th, of the full centuries only every fourth. */
  predicate HasLeapDay(y: int) { if y % 100 == 0 then y / 100 % 4 == 0 else y % 4 == 0 }

  predicate LastOfMonth(d: Date)
    requires 1 <= d.month <= 12
  {
    d.day == MONTHS[d.month - 1] + if d.month == 2 && HasLeapDay(d.year) then 1 else 0
  }

  function Tomorrow(d: Date): Date
    requires 1 <= d.month <= 12
  {
    if !LastOfMonth(d) then Date(d.year, d.month, d.day + 1)
    else if d.month < 12 then Date(d.year, d.month + 1, 1)
    else Date(d.year + 1, 1, 1)
  }

  lemma LeapYears(y: int)
    ensures IsLeapYear(y) <==> HasLeapDay(y)
  {
  }

  lemma TomorrowIsNext(d: Date)
    requires ValidDate(d)
    ensures ValidDate(Tomorrow(d)) && DayNumber(Tomorrow(d)) == DayNumber(d) + 1
  {
    LeapYears(d.year);
    if LastOfMonth(d) && d.month == 12 {
      YearHasTwelveMonths(d.year);
      assert DaysBeforeMonth(d.year, 13) == DaysBeforeMonth(d.year, 12) + 31;
    }
  }

  lemma FirstDay()
    ensures DayNumber(Date(0, 1, 1)) == 0
  {
    assert YearLength(-1) == 365;
  }

  /** Days are numbered as the Gregorian calendar follows them, day 0 being 0000-01-01. */
  lemma DayAfterDay(n: int)
    requires n >= -365
    ensures DateOf(n + 1) == Tomorrow(DateOf(n))
    ensures DayNumber(Date(0, 1, 1)) == 0
  {
    FirstDay();
    TomorrowIsNext(DateOf(n));
    hide DayNumber, Tomorrow;
    DateOrder(DateOf(n + 1), Tomorrow(DateOf(n)));
  }
}
