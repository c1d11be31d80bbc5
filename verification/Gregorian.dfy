/** The proleptic Gregorian calendar as Appendix C of RFC 3339 has it, by stepping
    from day to day and by counting days. */
module Gregorian {

  datatype Date = Date(year: int, month: int, day: int)

  predicate IsLeap(y: int) {
    y % 4 == 0 && (y % 100 != 0 || y % 400 == 0)
  }

  function DaysInMonth(y: int, m: int): int {
    if m == 2 then (if IsLeap(y) then 29 else 28)
    else if m == 4 || m == 6 || m == 9 || m == 11 then 30
    else 31
  }

  predicate Valid(x: Date) {
    1 <= x.month <= 12 && 1 <= x.day <= DaysInMonth(x.year, x.month)
  }

  function NextDay(x: Date): Date {
    if x.day < DaysInMonth(x.year, x.month) then x.(day := x.day + 1)
    else if x.month < 12 then Date(x.year, x.month + 1, 1)
    else Date(x.year + 1, 1, 1)
  }

  function Stepped(x: Date, n: nat): Date {
    if n == 0 then x else NextDay(Stepped(x, n - 1))
  }

  const EPOCH := Date(1970, 1, 1)

  /** Days from the first day of year 0 to the first day of year `y`. */
  function DaysBeforeYear(y: int): int {
    365 * y + (y + 3) / 4 - (y + 99) / 100 + (y + 399) / 400
  }

  function DaysBeforeMonth(y: int, m: int): int
    requires 1 <= m <= 12
    decreases m
  {
    if m == 1 then 0 else DaysBeforeMonth(y, m - 1) + DaysInMonth(y, m - 1)
  }

  function DaysFromCivil(x: Date): int
    requires 1 <= x.month <= 12
  {
    DaysBeforeYear(x.year) + DaysBeforeMonth(x.year, x.month) + x.day - 1 - 719_528
  }

  function DaysInYear(y: int): int {
    if IsLeap(y) then 366 else 365
  }

  lemma YearLength(y: int)
    ensures DaysBeforeYear(y + 1) == DaysBeforeYear(y) + DaysInYear(y)
  {
    Carry(y, 4);
    Carry(y, 100);
    Carry(y, 400);
    Multiples(y);
    hide IsLeap;
    assert IsLeap(y) <==> y % 4 == 0 && (y % 100 != 0 || y % 400 == 0) by { LeapMeans(y); }
  }

  lemma LeapMeans(y: int)
    ensures IsLeap(y) <==> y % 4 == 0 && (y % 100 != 0 || y % 400 == 0)
  {
  }

  /** What division by the constants of the calendar yields. */
  lemma Quotient(a: int, n: int, q: int)
    requires n == 4 || n == 100 || n == 400
    requires n * q <= a < n * q + n
    ensures a / n == q && a % n == a - n * q
  {
    if n == 4 {
      assert a / 4 == q;
    } else if n == 100 {
      assert a / 100 == q;
    } else {
      assert a / 400 == q;
    }
  }

  lemma Multiples(y: int)
    ensures y % 400 == 0 ==> y % 100 == 0
    ensures y % 100 == 0 ==> y % 4 == 0
  {
    if y % 400 == 0 {
      Quotient(y, 100, 4 * (y / 400));
    }
    if y % 100 == 0 {
      Quotient(y, 4, 25 * (y / 100));
    }
  }

  lemma Carry(y: int, n: int)
    requires n == 4 || n == 100 || n == 400
    ensures (y + n) / n - (y + n - 1) / n == if y % n == 0 then 1 else 0
  {
  }

  lemma MonthLengths(y: int)
    ensures DaysBeforeMonth(y, 12) + DaysInMonth(y, 12) == DaysInYear(y)
    ensures var b := if IsLeap(y) then 1 else 0;
            && DaysBeforeMonth(y, 1) == 0 && DaysBeforeMonth(y, 2) == 31
            && DaysBeforeMonth(y, 3) == 59 + b && DaysBeforeMonth(y, 4) == 90 + b
            && DaysBeforeMonth(y, 5) == 120 + b && DaysBeforeMonth(y, 6) == 151 + b
            && DaysBeforeMonth(y, 7) == 181 + b && DaysBeforeMonth(y, 8) == 212 + b
            && DaysBeforeMonth(y, 9) == 243 + b && DaysBeforeMonth(y, 10) == 273 + b
            && DaysBeforeMonth(y, 11) == 304 + b && DaysBeforeMonth(y, 12) == 334 + b
  {
    assert DaysBeforeMonth(y, 3) == DaysBeforeMonth(y, 2) + DaysInMonth(y, 2);
    assert DaysBeforeMonth(y, 6) == DaysBeforeMonth(y, 5) + 31;
    assert DaysBeforeMonth(y, 9) == DaysBeforeMonth(y, 8) + 31;
    assert DaysBeforeMonth(y, 12) == DaysBeforeMonth(y, 11) + 30;
  }

  /** Counting agrees with stepping. */
  lemma NextDayCounts(x: Date)
    requires Valid(x)
    ensures Valid(NextDay(x)) && DaysFromCivil(NextDay(x)) == DaysFromCivil(x) + 1
  {
    YearLength(x.year);
    MonthLengths(x.year);
    assert DaysBeforeMonth(x.year + 1, 1) == 0;
  }

  /** The day of the year, counted from 0. */
  function DayOfYear(x: Date): int
    requires 1 <= x.month <= 12
  {
    DaysBeforeMonth(x.year, x.month) + x.day - 1
  }

  lemma DayOfYearRange(x: Date)
    requires Valid(x)
    ensures 0 <= DayOfYear(x) < DaysInYear(x.year)
  {
    MonthLengths(x.year);
  }

  lemma YearsMonotone(y: int, z: int)
    requires y < z
    ensures DaysBeforeYear(y) + DaysInYear(y) <= DaysBeforeYear(z)
  {
    YearLength(y);
    assert (y + 1 + 99) / 100 + (z - y - 1) >= (z + 99) / 100;
  }

  predicate Earlier(x: Date, y: Date) {
    || x.year < y.year
    || (x.year == y.year && (x.month < y.month || (x.month == y.month && x.day < y.day)))
  }

  /** Counting orders the dates, so no two valid dates have the same count. */
  lemma CountOrders(x: Date, y: Date)
    requires Valid(x) && Valid(y)
    ensures DaysFromCivil(x) < DaysFromCivil(y) <==> Earlier(x, y)
    ensures DaysFromCivil(x) == DaysFromCivil(y) <==> x == y
  {
    if Earlier(x, y) {
      EarlierCounts(x, y);
    } else if Earlier(y, x) {
      EarlierCounts(y, x);
    }
  }

  lemma EarlierCounts(x: Date, y: Date)
    requires Valid(x) && Valid(y) && Earlier(x, y)
    ensures DaysFromCivil(x) < DaysFromCivil(y)
  {
    DayOfYearRange(x);
    DayOfYearRange(y);
    if x.year < y.year {
      YearsMonotone(x.year, y.year);
    } else {
      MonthLengths(x.year);
    }
  }
}
