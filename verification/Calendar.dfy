/** The date arithmetic of the logger. */
module Calendar {
  import opened Gregorian

  const I64_MAX := 0x7fff_ffff_ffff_ffff

  newtype i64 = x: int | -0x8000_0000_0000_0000 <= x <= 0x7fff_ffff_ffff_ffff
  newtype u64 = x: int | 0 <= x <= 0xffff_ffff_ffff_ffff
  newtype u32 = x: int | 0 <= x <= 0xffff_ffff

  /** Dividing a signed machine integer by the days of an era, rounding towards zero. */
  function TruncDiv(a: i64): i64 {
    if a >= 0 then (a as int / 146_097) as i64 else (-((-(a as int)) / 146_097)) as i64
  }

  /** The 400-year era of a day number, by division that rounds towards zero, is the
      floor of the quotient, so the day of the era is within the era. */
  lemma EraRange(z: int, era: int)
    requires era == (if z >= 0 then z / 146_097 else -((146_096 - z) / 146_097))
    ensures 0 <= z - era * 146_097 < 146_097 && era == z / 146_097
  {
  }

  function YearOfEra(doe: int): int {
    (doe - doe / 1460 + doe / 36_524 - doe / 146_096) / 365
  }

  function DayOfMarchYear(doe: int): int {
    var yoe := YearOfEra(doe);
    doe - (365 * yoe + yoe / 4 - yoe / 100)
  }

  /** The four divisions find the year, counted from March, that a day of the era
      falls into; that year has 366 days only if its February has 29. */
  lemma YearOfEraRight(doe: int)
    requires 0 <= doe < 146_097
    ensures 0 <= YearOfEra(doe) <= 399
    ensures 0 <= DayOfMarchYear(doe) <= 365
    ensures DayOfMarchYear(doe) == 365 ==> IsLeap(YearOfEra(doe) + 1)
  {
    if doe == 146_096 {
      assert YearOfEra(doe) == 399;
    } else {
      var c := doe / 36_524;
      var r := doe - 36_524 * c;
      var t := 24 * c + r;
      var q := t / 1460;
      var s := t - 1460 * q;
      WithinCentury(c, r, q, s);
      var k := 4 * q + (s - q - 24 * c) / 365;
      YearByCentury(doe, c, q, s);
      InCentury(c, k, r, doe);
    }
  }

  lemma InCentury(c: int, k: int, r: int, doe: int)
    requires 0 <= c <= 3 && 0 <= k <= 99 && YearOfEra(doe) == 100 * c + k && doe == 36_524 * c + r
    requires 0 <= r - (365 * k + k / 4) <= 365
    requires r - (365 * k + k / 4) == 365 ==> k % 4 == 3 && k != 99
    ensures 0 <= DayOfMarchYear(doe) <= 365
    ensures DayOfMarchYear(doe) == 365 ==> IsLeap(YearOfEra(doe) + 1)
  {
    hide YearOfEra;
    assert (100 * c + k) / 100 == c && (100 * c + k) / 4 == 25 * c + k / 4;
    assert DayOfMarchYear(doe) == r - (365 * k + k / 4);
  }

  lemma YearByCentury(doe: int, c: int, q: int, s: int)
    requires 0 <= doe < 146_096 && c == doe / 36_524
    requires doe == 1460 * (25 * c + q) + s && 0 <= s < 1460
    ensures YearOfEra(doe) == 100 * c + (4 * q + (s - q - 24 * c) / 365)
  {
    assert doe / 1460 == 25 * c + q;
    assert doe - doe / 1460 + doe / 36_524 - doe / 146_096 == 365 * (100 * c + 4 * q) + (s - q - 24 * c);
  }

  /** Day `r` of a century, where `24 * c + r == 1460 * q + s`. */
  lemma WithinCentury(c: int, r: int, q: int, s: int)
    requires 0 <= c <= 3 && 0 <= r < 36_524 && 24 * c + r == 1460 * q + s && 0 <= s < 1460
    ensures var k := 4 * q + (s - q - 24 * c) / 365;
            && 0 <= k <= 99
            && 0 <= r - (365 * k + k / 4) <= 365
            && (r - (365 * k + k / 4) == 365 ==> k % 4 == 3 && k != 99)
  {
    var j := (s - q - 24 * c) / 365;
    assert 0 <= q <= 25;
    assert -1 <= j <= 3;
    if j == -1 {
      assert (4 * q - 1) / 4 == q - 1;
    } else {
      assert (4 * q + j) / 4 == q;
    }
  }

  /** The day of the month and the month of day `doy` of a year that begins in March. */
  function MonthDay(doy: int): (int, int) {
    var mp := (5 * doy + 2) / 153;
    (if mp < 10 then mp + 3 else mp - 9, doy - (153 * mp + 2) / 5 + 1)
  }

  // ----- the same steps on machine integers, none of which over- or underflows -----

  function EraOf(z: i64): (era: i64)
    requires z as int >= -0x8000_0000_0000_0000 + 719_468
    ensures era as int == z as int / 146_097
  {
    EraRange(z as int, z as int / 146_097);
    TruncDiv(if z >= 0 then z else z - 146_096)
  }

  function YoeOf(doe: u64): (yoe: u64)
    requires doe < 146_097
    ensures yoe as int == YearOfEra(doe as int) <= 399
  {
    YearOfEraRight(doe as int);
    (doe - doe / 1460 + doe / 36_524 - doe / 146_096) / 365
  }

  function DoyOf(doe: u64, yoe: u64): (doy: u64)
    requires doe < 146_097 && yoe as int == YearOfEra(doe as int)
    ensures doy as int == DayOfMarchYear(doe as int) <= 365
  {
    YearOfEraRight(doe as int);
    doe - (365 * yoe + yoe / 4 - yoe / 100)
  }

  function MonthDayOf(doy: u64): (r: (u32, u32))
    requires doy <= 365
    ensures (r.0 as int, r.1 as int) == MonthDay(doy as int) && 1 <= r.0 <= 12 && 1 <= r.1 <= 31
  {
    var mp := (5 * doy + 2) / 153;
    var d := (doy - (153 * mp + 2) / 5 + 1) as u32;
    var m := (if mp < 10 then mp + 3 else mp - 9) as u32;
    (m, d)
  }

  /** `civil_from_days`. */
  function CivilFromDays(days: i64): (i64, u32, u32)
    requires days as int + 719_468 <= I64_MAX
  {
    var z := days + 719_468;
    var era := EraOf(z);
    var doe := (z - era * 146_097) as u64;
    var yoe := YoeOf(doe);
    var y := yoe as i64 + era * 400;
    var doy := DoyOf(doe, yoe);
    var (m, d) := MonthDayOf(doy);
    (if m <= 2 then y + 1 else y, m, d)
  }

  /** The day numbers whose shift to the start of an era does not overflow. */
  predicate InRange(days: int) {
    -0x8000_0000_0000_0000 <= days <= I64_MAX - 719_468
  }

  function Civil(days: int): Date
    requires InRange(days)
  {
    var (y, m, d) := CivilFromDays(days as i64);
    Date(y as int, m as int, d as int)
  }

  // ----- the same on unbounded integers -----

  function CivilInEra(era: int, doe: int): Date {
    var (m, d) := MonthDay(DayOfMarchYear(doe));
    var y := YearOfEra(doe) + era * 400;
    Date(if m <= 2 then y + 1 else y, m, d)
  }

  lemma CivilMeans(days: int)
    requires InRange(days)
    ensures Civil(days) == CivilInEra((days + 719_468) / 146_097, (days + 719_468) % 146_097)
  {
    hide EraOf, YoeOf, DoyOf, MonthDayOf, YearOfEra, DayOfMarchYear, MonthDay;
    var z := days as i64 + 719_468;
    var doe := (z - EraOf(z) * 146_097) as u64;
    assert doe as int == (days + 719_468) % 146_097;
  }

  lemma MonthDayRight(y: int, doy: int)
    requires 0 <= doy <= 365 && (doy == 365 ==> IsLeap(y + 1))
    ensures var (m, d) := MonthDay(doy);
            var x := Date(if m <= 2 then y + 1 else y, m, d);
            Valid(x) &&
            DaysBeforeMonth(x.year, m) + d - 1 ==
            if m <= 2 then doy - 306 else doy + 59 + (if IsLeap(y) then 1 else 0)
  {
    var mp := (5 * doy + 2) / 153;
    assert 0 <= mp <= 11;
    MonthLengths(y);
    MonthLengths(y + 1);
    hide IsLeap, DaysBeforeMonth;
  }

  /** The days before the first of March of the year `y`. */
  function DaysBeforeMarch(y: int): int {
    365 * y + y / 4 - y / 100 + y / 400 + 60
  }

  lemma MarchFirst(y: int)
    ensures DaysBeforeYear(y) + 59 + (if IsLeap(y) then 1 else 0) == DaysBeforeMarch(y)
    ensures DaysBeforeYear(y + 1) - 306 == DaysBeforeMarch(y)
  {
    YearLength(y);
    hide IsLeap;
    assert (y + 4) / 4 == y / 4 + 1 && (y + 100) / 100 == y / 100 + 1 && (y + 400) / 400 == y / 400 + 1;
  }

  lemma SameRemainder(a: int, era: int, n: int)
    requires n == 4 || n == 100 || n == 400
    ensures (a + era * 400) / n == a / n + 400 / n * era && (a + era * 400) % n == a % n
  {
    Quotient(a + era * 400, n, a / n + 400 / n * era);
  }

  lemma YearInEra(era: int, yoe: int)
    requires 0 <= yoe <= 399
    ensures var y := yoe + era * 400;
            && y / 4 == yoe / 4 + 100 * era && y / 100 == yoe / 100 + 4 * era && y / 400 == era
            && (IsLeap(yoe + 1) <==> IsLeap(y + 1))
  {
    var y := yoe + era * 400;
    Quotient(y, 400, era);
    SameRemainder(yoe, era, 4);
    SameRemainder(yoe, era, 100);
    SameRemainder(yoe + 1, era, 4);
    SameRemainder(yoe + 1, era, 100);
    SameRemainder(yoe + 1, era, 400);
  }

  /** The year of a day of an era begins as many days into it as the day is past March. */
  lemma MarchInEra(era: int, doe: int)
    requires 0 <= doe < 146_097
    ensures var y := YearOfEra(doe) + era * 400;
            && DaysBeforeMarch(y) == era * 146_097 + doe - DayOfMarchYear(doe) + 60
            && (IsLeap(YearOfEra(doe) + 1) <==> IsLeap(y + 1))
  {
    YearOfEraRight(doe);
    var yoe := YearOfEra(doe);
    assert DayOfMarchYear(doe) == doe - (365 * yoe + yoe / 4 - yoe / 100);
    hide YearOfEra, DayOfMarchYear, IsLeap;
    YearInEra(era, yoe);
  }

  lemma CivilInEraRight(era: int, doe: int)
    requires 0 <= doe < 146_097
    ensures var x := CivilInEra(era, doe);
            Valid(x) && DaysFromCivil(x) == era * 146_097 + doe - 719_468
  {
    hide YearOfEra, DayOfMarchYear, IsLeap, MonthDay, DaysBeforeMonth, DaysBeforeYear, DaysBeforeMarch;
    var y := YearOfEra(doe) + era * 400;
    YearOfEraRight(doe);
    MarchInEra(era, doe);
    MonthDayRight(y, DayOfMarchYear(doe));
    MarchFirst(y);
  }

  // ----- what `civil_from_days` promises -----

  /** The date is valid, and counting its days gives the input back. */
  lemma CivilInverts(days: int)
    requires InRange(days)
    ensures Valid(Civil(days)) && DaysFromCivil(Civil(days)) == days
  {
    CivilMeans(days);
    hide Civil, CivilInEra;
    var z := days + 719_468;
    CivilInEraRight(z / 146_097, z % 146_097);
  }

  /** Every valid date in range is reached, from its own day number. */
  lemma CivilReaches(x: Date)
    requires Valid(x) && InRange(DaysFromCivil(x))
    ensures Civil(DaysFromCivil(x)) == x
  {
    var days := DaysFromCivil(x);
    CivilInverts(days);
    hide Civil, DaysFromCivil;
    CountOrders(Civil(days), x);
  }

  lemma CivilSteps(days: int)
    requires InRange(days) && InRange(days + 1)
    ensures Civil(days + 1) == NextDay(Civil(days))
  {
    CivilInverts(days);
    CivilInverts(days + 1);
    hide Civil, DaysFromCivil;
    NextDayCounts(Civil(days));
    CountOrders(Civil(days + 1), NextDay(Civil(days)));
  }

  lemma EpochIsDayZero()
    ensures Valid(EPOCH) && DaysFromCivil(EPOCH) == 0 && Civil(0) == EPOCH
  {
    assert DaysFromCivil(EPOCH) == 0;
    hide Civil, DaysFromCivil;
    CivilReaches(EPOCH);
  }

  /** On every input `civil_from_days` is the calendar of RFC 3339 stepped day by day:
      `n` days after any day comes its `n`-th next day. */
  lemma {:induction false} CivilIsStepped(days: int, n: nat)
    requires InRange(days) && InRange(days + n)
    ensures Civil(days + n) == Stepped(Civil(days), n)
  {
    hide Civil;
    if n > 0 {
      CivilIsStepped(days, n - 1);
      CivilSteps(days + n - 1);
    }
  }

  /** In particular from the epoch on, and up to the epoch. */
  lemma CivilFromEpoch(n: int)
    requires n >= 0
    ensures InRange(n) ==> Civil(n) == Stepped(EPOCH, n)
    ensures InRange(-n) ==> Stepped(Civil(-n), n) == EPOCH
  {
    hide Civil, DaysFromCivil, Stepped;
    EpochIsDayZero();
    if InRange(n) { CivilIsStepped(0, n); }
    if InRange(-n) { CivilIsStepped(-n, n); }
  }
}
