/** The log's timestamps. */
module Timestamp {
  import opened Decimal
  import opened Padding
  import opened Gregorian
  import opened Calendar

  /** The two-digit fields, each behind its separator. */
  function Tail(seps: string, fields: seq<nat>): string
    requires |seps| == |fields|
  {
    if fields == [] then [] else [seps[0]] + (Pad(fields[0], 2) + Tail(seps[1..], fields[1..]))
  }

  const SEPARATORS := "-- ::"

  function DaysOf(secs: u64): (days: i64)
    ensures days as int == secs as int / 86_400 && InRange(days as int)
  {
    (secs / 86_400) as i64
  }

  lemma SinceEpoch(days: int)
    requires InRange(days) && days >= 0
    ensures Civil(days).year >= 1970
  {
    hide Civil, DaysFromCivil;
    CivilInverts(days);
    EpochIsDayZero();
    CountOrders(Civil(days), EPOCH);
  }

  /** The six numbers of a timestamp, the year first. */
  function YearOf(secs: u64): nat {
    SinceEpoch(DaysOf(secs) as int);
    CivilFromDays(DaysOf(secs)).0 as nat
  }

  function FieldsOf(secs: u64): (fields: seq<nat>)
    ensures |fields| == 5
  {
    var rem := secs % 86_400;
    var (_, mo, d) := CivilFromDays(DaysOf(secs));
    [mo as nat, d as nat, (rem / 3600) as nat, (rem % 3600 / 60) as nat, (rem % 60) as nat]
  }

  /** `utc_timestamp`. */
  function Timestamp(secs: u64): string {
    Pad(YearOf(secs), 4) + Tail(SEPARATORS, FieldsOf(secs))
  }

  // ----- the fields -----

  /** The six fields are a valid date and time of day, and give the second back. */
  lemma FieldsReconstruct(secs: u64)
    ensures var f := FieldsOf(secs);
            && Valid(Date(YearOf(secs), f[0], f[1]))
            && f[2] < 24 && f[3] < 60 && f[4] < 60
            && secs as int == DaysFromCivil(Date(YearOf(secs), f[0], f[1])) * 86_400 + f[2] * 3600 + f[3] * 60 + f[4]
  {
    hide CivilFromDays, DaysFromCivil, Valid, IsLeap;
    var f := FieldsOf(secs);
    var days := DaysOf(secs) as int;
    CivilInverts(days);
    assert Date(YearOf(secs), f[0], f[1]) == Civil(days);
    TimeOfDay(secs as int % 86_400);
    hide Civil, YearOf, FieldsOf;
  }

  lemma TimeOfDay(rem: int)
    requires 0 <= rem < 86_400
    ensures 0 <= rem / 3600 < 24 && 0 <= rem % 3600 / 60 < 60 && 0 <= rem % 60 < 60
    ensures rem == rem / 3600 * 3600 + rem % 3600 / 60 * 60 + rem % 60
  {
  }

  ghost predicate Small(fields: seq<nat>) {
    forall i :: 0 <= i < |fields| ==> fields[i] < 100
  }

  lemma FieldsSmall(secs: u64)
    ensures Small(FieldsOf(secs))
  {
    FieldsReconstruct(secs);
    hide FieldsOf, DaysFromCivil, YearOf;
  }

  // ----- reading a timestamp -----

  lemma TwoDigits(n: nat)
    requires n < 100
    ensures |Pad(n, 2)| == 2
  {
    assert Pow10(2) == 100;
    PadIsDigits(n, 2);
  }

  lemma {:induction false} TailSlices(seps: string, fields: seq<nat>, k: nat)
    requires |seps| == |fields| && Small(fields)
    ensures |Tail(seps, fields)| == 3 * |fields|
    ensures k < |fields| ==> Tail(seps, fields)[3 * k + 1..3 * k + 3] == Pad(fields[k], 2)
  {
    if fields != [] {
      var first, rest := Pad(fields[0], 2), Tail(seps[1..], fields[1..]);
      TwoDigits(fields[0]);
      TailSlices(seps[1..], fields[1..], if k > 0 then k - 1 else 0);
      assert Tail(seps, fields) == [seps[0]] + (first + rest);
      hide Tail, Pad, Small;
      SliceFirst(seps[0], first, rest);
      if 0 < k < |fields| {
        SliceLater(seps[0], first, rest, 3 * (k - 1) + 1);
      }
    }
  }

  lemma SliceFirst(c: char, first: string, rest: string)
    requires |first| == 2
    ensures ([c] + (first + rest))[1..3] == first
  {
  }

  lemma SliceLater(c: char, first: string, rest: string, i: nat)
    requires |first| == 2 && i + 2 <= |rest|
    ensures ([c] + (first + rest))[i + 3..i + 5] == rest[i..i + 2]
  {
  }

  function ReadAt(t: string, i: int): nat {
    if 0 <= i && i + 2 <= |t| && AllDigits(t[i..i + 2]) then Read(t[i..i + 2]) else 0
  }

  /** The second a timestamp stands for: the last 15 characters are the five
      two-digit fields, and before them is the year. */
  function Parse(t: string): int {
    var n := |t| - 15;
    var year := if n >= 0 && AllDigits(t[..n]) then Read(t[..n]) else 0;
    var month := ReadAt(t, n + 1);
    if !(1 <= month <= 12) then 0
    else
      DaysFromCivil(Date(year, month, ReadAt(t, n + 4))) * 86_400
      + ReadAt(t, n + 7) * 3600 + ReadAt(t, n + 10) * 60 + ReadAt(t, n + 13)
  }

  lemma ReadField(y: string, fields: seq<nat>, k: nat)
    requires |fields| == 5 && Small(fields) && k < 5
    ensures |y + Tail(SEPARATORS, fields)| == |y| + 15
    ensures ReadAt(y + Tail(SEPARATORS, fields), |y| + 3 * k + 1) == fields[k]
  {
    TailSlices(SEPARATORS, fields, k);
    hide Tail, Pad, Small;
    var i, t := |y| + 3 * k + 1, y + Tail(SEPARATORS, fields);
    assert t[i..i + 2] == Tail(SEPARATORS, fields)[3 * k + 1..3 * k + 3] == Pad(fields[k], 2);
    ReadPad(fields[k], 2);
  }

  /** Reading undoes writing, whatever the fields. */
  lemma ParseFields(year: nat, fields: seq<nat>)
    requires |fields| == 5 && Small(fields) && 1 <= fields[0] <= 12
    ensures Parse(Pad(year, 4) + Tail(SEPARATORS, fields)) ==
            DaysFromCivil(Date(year, fields[0], fields[1])) * 86_400 + fields[2] * 3600 + fields[3] * 60 + fields[4]
  {
    var y, t := Pad(year, 4), Pad(year, 4) + Tail(SEPARATORS, fields);
    ReadField(y, fields, 0);
    ReadField(y, fields, 1);
    ReadField(y, fields, 2);
    ReadField(y, fields, 3);
    ReadField(y, fields, 4);
    hide Tail, Pad, DaysFromCivil, ReadAt, Read;
    assert t[..|t| - 15] == y;
    ReadPad(year, 4);
  }

  /** Every second is recovered from its timestamp. */
  lemma TimestampRoundTrip(secs: u64)
    ensures Parse(Timestamp(secs)) == secs as int
  {
    FieldsReconstruct(secs);
    FieldsSmall(secs);
    hide FieldsOf, YearOf, Tail, Pad, DaysFromCivil, Parse;
    ParseFields(YearOf(secs), FieldsOf(secs));
  }

  lemma TimestampInjective(a: u64, b: u64)
    requires Timestamp(a) == Timestamp(b)
    ensures a == b
  {
    TimestampRoundTrip(a);
    TimestampRoundTrip(b);
    hide Parse, Timestamp;
  }

  // ----- order -----

  predicate FieldsLess(a: seq<nat>, b: seq<nat>)
    requires |a| == |b|
  {
    a != [] && (a[0] < b[0] || (a[0] == b[0] && FieldsLess(a[1..], b[1..])))
  }

  lemma {:induction false} TailOrder(seps: string, a: seq<nat>, b: seq<nat>)
    requires |seps| == |a| == |b| && Small(a) && Small(b) && FieldsLess(a, b)
    ensures Less(Tail(seps, a), Tail(seps, b))
  {
    TwoDigits(a[0]);
    TwoDigits(b[0]);
    var x, y := Tail(seps[1..], a[1..]), Tail(seps[1..], b[1..]);
    if a[0] < b[0] {
      assert Pow10(2) == 100;
      PadOrder(a[0], b[0], 2);
    } else {
      TailOrder(seps[1..], a[1..], b[1..]);
    }
    LessConcat(Pad(a[0], 2), x, Pad(b[0], 2), y);
    LessConcat([seps[0]], Pad(a[0], 2) + x, [seps[0]], Pad(b[0], 2) + y);
  }

  /** The seconds of the years up to 9999. */
  const FOUR_DIGIT_YEARS: int := 253_402_300_800

  lemma FourDigitYears(secs: u64)
    ensures secs as int < FOUR_DIGIT_YEARS <==> YearOf(secs) < 10_000
  {
    var x, last := Civil(DaysOf(secs) as int), Date(10_000, 1, 1);
    CivilInverts(DaysOf(secs) as int);
    assert DaysBeforeMonth(10_000, 1) == 0 && DaysFromCivil(last) == 2_932_897;
    assert x.year == YearOf(secs);
    hide YearOf, DaysFromCivil, Civil, IsLeap;
    CountOrders(x, last);
  }

  /** A timestamp has its 19 characters exactly up to the year 9999. */
  lemma FixedWidth(secs: u64)
    ensures |Timestamp(secs)| == 19 <==> secs as int < FOUR_DIGIT_YEARS
  {
    FieldsSmall(secs);
    FourDigitYears(secs);
    hide YearOf, FieldsOf, Tail;
    ReadField(Pad(YearOf(secs), 4), FieldsOf(secs), 0);
    PadWidth(YearOf(secs), 4);
    assert Pow10(4) == 10 * Pow10(3) == 100 * Pow10(2);
  }

  lemma {:induction false} ShowWidth(n: nat, w: nat)
    requires w > 0
    ensures |Show(n)| <= w <==> n < Pow10(w)
  {
    if n >= 10 && w > 1 {
      ShowWidth(n / 10, w - 1);
    } else if n >= 10 {
      assert Pow10(1) == 10;
    } else {
      PowAtLeast(w);
    }
  }

  lemma {:induction false} PowAtLeast(w: nat)
    requires w > 0
    ensures Pow10(w) >= 10
  {
    if w > 1 { PowAtLeast(w - 1); }
  }

  lemma PadWidth(n: nat, w: nat)
    requires w > 0
    ensures |Pad(n, w)| == w <==> n < Pow10(w)
  {
    ShowWidth(n, w);
  }

  /** Of two seconds written as a day and a time of day, the later has the later day, or
      the same day and the later time. */
  lemma DayThenTime(d: int, t: int, e: int, u: int)
    requires 0 <= t < 86_400 && 0 <= u < 86_400 && d * 86_400 + t < e * 86_400 + u
    ensures d < e || (d == e && t < u)
  {
  }

  lemma TimeOrder(f: seq<nat>, g: seq<nat>)
    requires |f| == |g| == 5 && f[3] < 60 && f[4] < 60 && g[3] < 60 && g[4] < 60
    requires f[2] * 3600 + f[3] * 60 + f[4] < g[2] * 3600 + g[3] * 60 + g[4]
    ensures f[2] < g[2] || (f[2] == g[2] && (f[3] < g[3] || (f[3] == g[3] && f[4] < g[4])))
  {
  }

  lemma LaterFields(a: u64, b: u64)
    requires a < b
    ensures YearOf(a) < YearOf(b) || (YearOf(a) == YearOf(b) && FieldsLess(FieldsOf(a), FieldsOf(b)))
  {
    var f, g := FieldsOf(a), FieldsOf(b);
    FieldsReconstruct(a);
    FieldsReconstruct(b);
    hide FieldsOf, YearOf, DaysFromCivil, FieldsLess;
    LaterDate(YearOf(a), f, YearOf(b), g);
  }

  lemma LaterDate(m: nat, f: seq<nat>, n: nat, g: seq<nat>)
    requires |f| == |g| == 5 && Valid(Date(m, f[0], f[1])) && Valid(Date(n, g[0], g[1]))
    requires f[2] < 24 && f[3] < 60 && f[4] < 60 && g[2] < 24 && g[3] < 60 && g[4] < 60
    requires DaysFromCivil(Date(m, f[0], f[1])) * 86_400 + f[2] * 3600 + f[3] * 60 + f[4] <
             DaysFromCivil(Date(n, g[0], g[1])) * 86_400 + g[2] * 3600 + g[3] * 60 + g[4]
    ensures m < n || (m == n && FieldsLess(f, g))
  {
    var x, y := Date(m, f[0], f[1]), Date(n, g[0], g[1]);
    var d, e := DaysFromCivil(x), DaysFromCivil(y);
    hide DaysFromCivil, Valid, FieldsLess;
    DayThenTime(d, f[2] * 3600 + f[3] * 60 + f[4], e, g[2] * 3600 + g[3] * 60 + g[4]);
    CountOrders(x, y);
    FieldsCompare(f, g);
    if d == e {
      TimeOrder(f, g);
    }
  }

  lemma FieldsCompare(f: seq<nat>, g: seq<nat>)
    requires |f| == |g| == 5
    ensures FieldsLess(f, g) <==>
            || f[0] < g[0]
            || (f[0] == g[0] && (f[1] < g[1]
              || (f[1] == g[1] && (f[2] < g[2]
                || (f[2] == g[2] && (f[3] < g[3] || (f[3] == g[3] && f[4] < g[4])))))))
  {
    assert f[4..][1..] == [] && !FieldsLess(f[4..][1..], []);
    assert FieldsLess(f[4..], g[4..]) <==> f[4] < g[4];
    assert f[3..][1..] == f[4..] && g[3..][1..] == g[4..];
    assert FieldsLess(f[3..], g[3..]) <==> f[3] < g[3] || (f[3] == g[3] && f[4] < g[4]);
    assert f[2..][1..] == f[3..] && g[2..][1..] == g[3..];
    assert FieldsLess(f[2..], g[2..]) <==> f[2] < g[2] || (f[2] == g[2] && FieldsLess(f[3..], g[3..]));
    assert f[1..][1..] == f[2..] && g[1..][1..] == g[2..];
    assert FieldsLess(f[1..], g[1..]) <==> f[1] < g[1] || (f[1] == g[1] && FieldsLess(f[2..], g[2..]));
  }

  /** Up to the year 9999 later seconds have lexicographically greater timestamps. */
  lemma TimestampOrder(a: u64, b: u64)
    requires a < b && b as int < FOUR_DIGIT_YEARS
    ensures Less(Timestamp(a), Timestamp(b))
  {
    LaterFields(a, b);
    FieldsSmall(a);
    FieldsSmall(b);
    FourDigitYears(a);
    FourDigitYears(b);
    hide YearOf, FieldsOf, FieldsLess, Small, Pad, Tail, Less;
    var p, q := Pad(YearOf(a), 4), Pad(YearOf(b), 4);
    assert Pow10(4) == 10_000 by { assert Pow10(2) == 100; }
    if YearOf(a) < YearOf(b) {
      PadOrder(YearOf(a), YearOf(b), 4);
    } else {
      TailOrder(SEPARATORS, FieldsOf(a), FieldsOf(b));
    }
    LessConcat(p, Tail(SEPARATORS, FieldsOf(a)), q, Tail(SEPARATORS, FieldsOf(b)));
  }

  /** From the year 10000 on they no longer are. */
  lemma OrderEndsThere()
    ensures Less(Timestamp(253_402_300_800), Timestamp(253_402_300_799))
  {
    hide YearOf, FieldsOf, Tail;
    YearsMeet();
    FirstDigits();
    hide Pad;
  }

  lemma FirstDigits()
    ensures Pad(10_000, 4)[0] == '1' && Pad(9_999, 4)[0] == '9'
  {
    assert Show(9_999) == Show(999) + [Digit(9)] && Show(999) == Show(99) + [Digit(9)];
    assert Show(99) == Show(9) + [Digit(9)];
    assert Show(10_000) == Show(1_000) + [Digit(0)] && Show(1_000) == Show(100) + [Digit(0)];
    assert Show(100) == Show(10) + [Digit(0)] && Show(10) == Show(1) + [Digit(0)];
  }

  lemma YearsMeet()
    ensures YearOf(253_402_300_800) == 10_000 && YearOf(253_402_300_799) == 9_999
  {
    hide CivilFromDays;
    var x, y := Date(10_000, 1, 1), Date(9_999, 12, 31);
    assert DaysFromCivil(x) == 2_932_897 && DaysFromCivil(y) == 2_932_896 by {
      MonthLengths(9_999);
      assert DaysBeforeMonth(10_000, 1) == 0;
    }
    hide DaysFromCivil;
    CivilReaches(x);
    CivilReaches(y);
  }
}
