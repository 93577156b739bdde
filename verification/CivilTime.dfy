/**
 * The log line's UTC timestamp (agent/src/lib.rs: logging::stamp), against the proleptic
 * Gregorian calendar.
 *
 * The algorithm counts years from March, in eras of 400 years. The calendar here is independent
 * of it: month lengths, the leap rule, the next day, and the number of a day. The day number of
 * the date computed is the day count given, which fixes the date, since later dates have larger
 * numbers.
 */
module CivilTime {
  datatype Date = Date(year: nat, month: nat, day: nat)
  datatype Stamp = Stamp(date: Date, hour: nat, minute: nat, second: nat)

  // ------------------------------------------------- the algorithm ----

  /** Year of the 400-year era, from the day of the era. */
  function YearOfEra(doe: nat): nat {
    (doe - doe / 1460 + doe / 36524 - doe / 146096) / 365
  }

  /** The day of the era a March-based year starts on. */
  function YearStart(yoe: nat): nat {
    365 * yoe + yoe / 4 - yoe / 100
  }

  /** The day of a March-based year its `mp`-th month starts on. */
  function MonthStart(mp: nat): nat {
    (153 * mp + 2) / 5
  }

  /** What the calendar steps rest on: every intermediate is in range. */
  lemma Ranges(doe: nat)
    requires doe < 146097
    ensures YearOfEra(doe) < 400
    ensures YearStart(YearOfEra(doe)) <= doe <= YearStart(YearOfEra(doe)) + 365
    ensures doe == YearStart(YearOfEra(doe)) + 365 ==> MarchLeap(YearOfEra(doe))
  {
    var c := if doe / 36524 < 3 then doe / 36524 else 3;
    var r := doe - 36524 * c;
    var q := r / 1461;
    var s := r % 1461;
    Century(doe, c, r);
    Quad(c, r, q, s);
    var t := if s == 1460 then 3 else s / 365;
    FourYears(c, q, s, t, doe);
  }

  lemma Century(doe: nat, c: nat, r: nat)
    requires doe < 146097 && c == (if doe / 36524 < 3 then doe / 36524 else 3) && r == doe - 36524 * c
    ensures doe / 36524 - doe / 146096 == c
    ensures r < 36524 || (c == 3 && r == 36524)
  {
  }

  lemma Quad(c: nat, r: nat, q: nat, s: nat)
    requires r < 36524 || (c == 3 && r == 36524)
    requires q == r / 1461 && s == r % 1461
    ensures r == 1461 * q + s && q <= 24 && s <= 1460
    ensures s == 1460 ==> q < 24 || c == 3
  {
  }

  /** The year of the era, from its century, its group of four and its place in the group. */
  lemma FourYears(c: nat, q: nat, s: nat, t: nat, doe: nat)
    requires c <= 3 && q <= 24 && s <= 1460 && (s == 1460 ==> q < 24 || c == 3)
    requires t == (if s == 1460 then 3 else s / 365)
    requires doe == 36524 * c + 1461 * q + s && doe / 36524 - doe / 146096 == c
    ensures YearOfEra(doe) == 100 * c + 4 * q + t
    ensures YearStart(100 * c + 4 * q + t) == 36524 * c + 1461 * q + 365 * t
    ensures t <= 3 && 365 * t <= s <= 365 * t + 365
    ensures s == 365 * t + 365 ==> MarchLeap(100 * c + 4 * q + t)
    ensures 100 * c + 4 * q + t < 400
  {
    var e := (24 * c + q + s) / 1460;
    assert doe / 1460 == 25 * c + q + e by {
      assert doe == 1460 * (25 * c + q) + (24 * c + q + s);
    }
    assert doe - doe / 1460 + c == 365 * (100 * c + 4 * q) + (s - e);
    assert (s - e) / 365 == t;
    var k := 100 * c + 4 * q + t;
    assert k / 4 == 25 * c + q;
    assert k / 100 == c;
  }

  /** The year that ends with the February of `yoe + 1` has a leap day. */
  predicate MarchLeap(yoe: nat) {
    (yoe + 1) % 4 == 0 && ((yoe + 1) % 100 != 0 || (yoe + 1) % 400 == 0)
  }

  /** Civil from days. */
  function Civil(days: nat): Date {
    var z := days + 719468;
    var era, doe := z / 146097, z % 146097;
    Ranges(doe);
    var yoe := YearOfEra(doe);
    var doy := doe - YearStart(yoe);
    MonthRange(doy);
    var mp := (5 * doy + 2) / 153;
    var d := doy - MonthStart(mp) + 1;
    var m := if mp < 10 then mp + 3 else mp - 9;
    Date(yoe + era * 400 + (if m <= 2 then 1 else 0), m, d)
  }

  lemma MonthRange(doy: nat)
    requires doy <= 365
    ensures var mp := (5 * doy + 2) / 153;
      mp <= 11 && MonthStart(mp) <= doy < MonthStart(mp + 1)
  {
  }

  function Stamped(secs: nat): Stamp {
    var rem := secs % 86400;
    Stamp(Civil(secs / 86400), rem / 3600, rem / 60 % 60, rem % 60)
  }

  // ------------------------------------------------- the calendar ----

  predicate Leap(y: nat) {
    y % 4 == 0 && (y % 100 != 0 || y % 400 == 0)
  }

  function MonthLength(y: nat, m: nat): nat {
    if m == 2 then (if Leap(y) then 29 else 28)
    else if m == 4 || m == 6 || m == 9 || m == 11 then 30
    else 31
  }

  predicate Valid(d: Date) {
    d.year >= 1 && 1 <= d.month <= 12 && 1 <= d.day <= MonthLength(d.year, d.month)
  }

  function NextDay(d: Date): Date {
    if d.day < MonthLength(d.year, d.month) then Date(d.year, d.month, d.day + 1)
    else if d.month < 12 then Date(d.year, d.month + 1, 1)
    else Date(d.year + 1, 1, 1)
  }

  /** `n` days after the first of January 1970, counted one by one. */
  function Counted(n: nat): Date {
    if n == 0 then Date(1970, 1, 1) else NextDay(Counted(n - 1))
  }

  function DaysBeforeYear(y: nat): nat
    requires y >= 1
  {
    365 * (y - 1) + (y - 1) / 4 - (y - 1) / 100 + (y - 1) / 400
  }

  function DaysBeforeMonth(y: nat, m: nat): nat {
    if m <= 1 then 0 else DaysBeforeMonth(y, m - 1) + MonthLength(y, m - 1)
  }

  /** The day's number, with the first of January of year 1 as 1. */
  function DayNumber(d: Date): nat
    requires d.year >= 1
  {
    DaysBeforeYear(d.year) + DaysBeforeMonth(d.year, d.month) + d.day
  }

  /** The first of January 1970. */
  const EPOCH: nat := 719163

  // -------------------------------------------- days from civil, and back ----

  lemma Step4(y: nat)
    requires y >= 1
    ensures y / 4 == (y - 1) / 4 + (if y % 4 == 0 then 1 else 0)
  {
  }

  lemma Step100(y: nat)
    requires y >= 1
    ensures y / 100 == (y - 1) / 100 + (if y % 100 == 0 then 1 else 0)
  {
  }

  lemma Step400(y: nat)
    requires y >= 1
    ensures y / 400 == (y - 1) / 400 + (if y % 400 == 0 then 1 else 0)
  {
  }

  lemma Centuries(y: nat)
    ensures y % 400 == 0 ==> y % 100 == 0
    ensures y % 100 == 0 ==> y % 4 == 0
  {
    var q := y / 400;
    var c := y / 100;
    assert y == 400 * q + y % 400 && y == 100 * c + y % 100;
    assert y % 400 == 0 ==> y == 100 * (4 * q);
    assert y % 100 == 0 ==> y == 4 * (25 * c);
  }

  /** The leap days up to the end of a year. */
  lemma LeapDays(y: nat)
    requires y >= 1
    ensures y / 4 - y / 100 + y / 400
         == (y - 1) / 4 - (y - 1) / 100 + (y - 1) / 400 + (if Leap(y) then 1 else 0)
  {
    Centuries(y);
    Step4(y);
    Step100(y);
    Step400(y);
  }

  lemma YearLength(y: nat)
    requires y >= 1
    ensures DaysBeforeYear(y + 1) == DaysBeforeYear(y) + (if Leap(y) then 366 else 365)
  {
    LeapDays(y);
  }

  /** The first of March of year `k + 400 e`, in both counts. */
  lemma MarchFirst(k: nat, e: nat)
    requires k < 400 && k + 400 * e >= 1
    ensures var y := k + 400 * e;
      DaysBeforeYear(y) + 59 + (if Leap(y) then 1 else 0) == 146097 * e + YearStart(k) - 306
  {
    var y := k + 400 * e;
    LeapDays(y);
    assert y / 4 == k / 4 + 100 * e;
    assert y / 100 == k / 100 + 4 * e;
    assert y / 400 == e;
  }

  /** The months of a March-based year, in the ordinary year. */
  lemma MonthsBefore(y: nat, m: nat)
    requires 1 <= m <= 12
    ensures DaysBeforeMonth(y, m) ==
      if m <= 2 then 31 * (m - 1) else 59 + (if Leap(y) then 1 else 0) + MonthStart(m - 3)
  {
    MonthsTo(y, 6);
    MonthsTo(y, 12);
  }

  lemma MonthsTo(y: nat, m: nat)
    requires m == 6 || m == 12
    ensures var l := if Leap(y) then 1 else 0;
      && DaysBeforeMonth(y, 1) == 0 && DaysBeforeMonth(y, 2) == 31 && DaysBeforeMonth(y, 3) == 59 + l
      && DaysBeforeMonth(y, 4) == 90 + l && DaysBeforeMonth(y, 5) == 120 + l && DaysBeforeMonth(y, 6) == 151 + l
      && (m == 12 ==>
            (DaysBeforeMonth(y, 7) == 181 + l && DaysBeforeMonth(y, 8) == 212 + l
             && DaysBeforeMonth(y, 9) == 243 + l && DaysBeforeMonth(y, 10) == 273 + l
             && DaysBeforeMonth(y, 11) == 304 + l && DaysBeforeMonth(y, 12) == 334 + l))
  {
    hide Leap;
    if m == 12 {
      MonthsTo(y, 6);
      assert DaysBeforeMonth(y, 7) == DaysBeforeMonth(y, 6) + 30;
      assert DaysBeforeMonth(y, 8) == DaysBeforeMonth(y, 7) + 31;
      assert DaysBeforeMonth(y, 9) == DaysBeforeMonth(y, 8) + 31;
      assert DaysBeforeMonth(y, 10) == DaysBeforeMonth(y, 9) + 30;
      assert DaysBeforeMonth(y, 11) == DaysBeforeMonth(y, 10) + 31;
      assert DaysBeforeMonth(y, 12) == DaysBeforeMonth(y, 11) + 30;
    } else {
      assert DaysBeforeMonth(y, 2) == DaysBeforeMonth(y, 1) + 31;
      assert DaysBeforeMonth(y, 3) == DaysBeforeMonth(y, 2) + MonthLength(y, 2);
      assert DaysBeforeMonth(y, 4) == DaysBeforeMonth(y, 3) + 31;
      assert DaysBeforeMonth(y, 5) == DaysBeforeMonth(y, 4) + 30;
      assert DaysBeforeMonth(y, 6) == DaysBeforeMonth(y, 5) + 31;
    }
  }

  /** The pieces of `Civil`, named. */
  lemma CivilParts(days: nat) returns (e: nat, k: nat, doy: nat, mp: nat)
    ensures days + 719468 == 146097 * e + YearStart(k) + doy
    ensures k < 400 && doy <= 365 && (doy == 365 ==> MarchLeap(k))
    ensures mp <= 11 && MonthStart(mp) <= doy < MonthStart(mp + 1)
    ensures Civil(days) == Date(k + e * 400 + (if mp < 10 then 0 else 1), if mp < 10 then mp + 3 else mp - 9,
                                doy - MonthStart(mp) + 1)
    ensures k + 400 * e >= 1969
  {
    hide YearOfEra, YearStart, MonthStart, MarchLeap;
    var z := days + 719468;
    e := z / 146097;
    var doe := z % 146097;
    Ranges(doe);
    k := YearOfEra(doe);
    doy := doe - YearStart(k);
    MonthRange(doy);
    mp := (5 * doy + 2) / 153;
    assert z == 146097 * e + doe;
    NotBefore1969(e, k, doe);
  }

  lemma NotBefore1969(e: nat, k: nat, doe: nat)
    requires 146097 * e + doe >= 719468 && k < 400 && YearStart(k) <= doe <= YearStart(k) + 365 && doe < 146097
    ensures k + 400 * e >= 1969
  {
    assert e >= 4;
    if k < 369 { EarlyYear(k); }
  }

  lemma EarlyYear(k: nat)
    requires k < 369
    ensures YearStart(k) + 365 < 719468 - 146097 * 4
  {
    assert k / 4 <= 92;
  }

  /** The date is the one whose number is the day count: it is a real date, and it is the right one. */
  lemma CivilCounts(days: nat)
    ensures Valid(Civil(days)) && DayNumber(Civil(days)) == days + EPOCH
  {
    var e, k, doy, mp := CivilParts(days);
    hide Civil, YearStart;
    var d := Civil(days);
    if mp < 10 {
      MarchFirst(k, e);
      MonthsBefore(d.year, d.month);
      DayInMonth(d.year, mp, doy);
    } else {
      MarchFirst(k, e);
      YearLength(d.year - 1);
      MonthsBefore(d.year, d.month);
      DayInWinter(d.year, k, e, mp, doy);
    }
  }

  lemma DayInMonth(y: nat, mp: nat, doy: nat)
    requires mp < 10 && MonthStart(mp) <= doy < MonthStart(mp + 1)
    ensures doy - MonthStart(mp) + 1 <= MonthLength(y, mp + 3)
  {
  }

  lemma DayInWinter(y: nat, k: nat, e: nat, mp: nat, doy: nat)
    requires 10 <= mp <= 11 && MonthStart(mp) <= doy <= 365 && doy < MonthStart(mp + 1)
    requires y == k + 400 * e + 1 && (doy == 365 ==> MarchLeap(k))
    ensures doy - MonthStart(mp) + 1 <= MonthLength(y, mp - 9)
  {
    EraLeap(k, e);
    hide Leap, MarchLeap;
  }

  /** Leap years repeat every era. */
  lemma EraLeap(k: nat, e: nat)
    ensures MarchLeap(k) == Leap(k + 400 * e + 1)
  {
    Shift4(k + 1, e);
    Shift100(k + 1, e);
    Shift400(k + 1, e);
    assert k + 400 * e + 1 == k + 1 + 400 * e;
  }

  lemma Shift4(a: nat, e: nat)
    ensures (a + 400 * e) % 4 == a % 4
  {
    assert (a + 400 * e) / 4 == a / 4 + 100 * e;
  }

  lemma Shift100(a: nat, e: nat)
    ensures (a + 400 * e) % 100 == a % 100
  {
    assert (a + 400 * e) / 100 == a / 100 + 4 * e;
  }

  lemma Shift400(a: nat, e: nat)
    ensures (a + 400 * e) % 400 == a % 400
  {
    assert (a + 400 * e) / 400 == a / 400 + e;
  }

  // ------------------------------------------------- both directions ----

  predicate Before(a: Date, b: Date) {
    a.year < b.year || (a.year == b.year && (a.month < b.month || (a.month == b.month && a.day < b.day)))
  }

  lemma {:induction false} MonthsRise(y: nat, m: nat, n: nat)
    requires 1 <= m < n
    ensures DaysBeforeMonth(y, m) + MonthLength(y, m) <= DaysBeforeMonth(y, n)
    decreases n
  {
    hide MonthLength;
    if m < n - 1 { MonthsRise(y, m, n - 1); }
  }

  lemma {:induction false} YearsRise(y: nat, z: nat)
    requires 1 <= y < z
    ensures DaysBeforeYear(y) + (if Leap(y) then 366 else 365) <= DaysBeforeYear(z)
    decreases z
  {
    hide DaysBeforeYear, Leap;
    YearLength(z - 1);
    if y < z - 1 { YearsRise(y, z - 1); }
  }

  lemma InsideYear(d: Date)
    requires Valid(d)
    ensures DaysBeforeMonth(d.year, d.month) + d.day <= if Leap(d.year) then 366 else 365
  {
    hide Leap, DaysBeforeMonth;
    MonthsTo(d.year, 12);
    if d.month < 12 { MonthsRise(d.year, d.month, 12); }
  }

  /** Later dates have larger numbers. */
  lemma NumbersRise(a: Date, b: Date)
    requires Valid(a) && Valid(b) && Before(a, b)
    ensures DayNumber(a) < DayNumber(b)
  {
    hide DaysBeforeYear, DaysBeforeMonth, MonthLength, Leap;
    if a.year < b.year {
      InsideYear(a);
      YearsRise(a.year, b.year);
    } else if a.month < b.month {
      MonthsRise(a.year, a.month, b.month);
    }
  }

  /** From civil to days and back: a date of the proleptic calendar is what its day count turns into. */
  lemma DaysFromCivil(d: Date, days: nat)
    requires Valid(d) && DayNumber(d) == days + EPOCH
    ensures Civil(days) == d
  {
    hide DayNumber, Civil, Valid;
    CivilCounts(days);
    SameNumber(Civil(days), d);
  }

  /** And every date from 1970 on has a day count. */
  lemma NotBeforeTheEpoch(d: Date)
    requires Valid(d) && d.year >= 1970
    ensures DayNumber(d) >= EPOCH
  {
    hide DayNumber, MonthLength;
    var first := Date(1970, 1, 1);
    FirstDay();
    if d != first { NumbersRise(first, d); }
  }

  lemma FirstDay()
    ensures Valid(Date(1970, 1, 1)) && DayNumber(Date(1970, 1, 1)) == EPOCH
  {
  }

  lemma NextDayCounts(d: Date)
    requires Valid(d)
    ensures Valid(NextDay(d)) && DayNumber(NextDay(d)) == DayNumber(d) + 1
  {
    hide DaysBeforeYear, Leap;
    if d.day < MonthLength(d.year, d.month) {
    } else if d.month < 12 {
      MonthsRise(d.year, d.month, d.month + 1);
    } else {
      MonthsTo(d.year, 12);
      YearLength(d.year);
    }
  }

  lemma {:induction false} CountedCounts(n: nat)
    ensures Valid(Counted(n)) && DayNumber(Counted(n)) == n + EPOCH
  {
    hide DayNumber, NextDay;
    if n == 0 {
      FirstDay();
    } else {
      CountedCounts(n - 1);
      NextDayCounts(Counted(n - 1));
    }
  }

  /** The algorithm is the calendar: `n` days after the epoch is what counting day by day, with
      month lengths and the leap rule, arrives at. */
  lemma {:induction false} CivilIsTheCalendar(n: nat)
    ensures Civil(n) == Counted(n)
  {
    hide Civil, DayNumber, Counted;
    CountedCounts(n);
    CivilCounts(n);
    SameNumber(Civil(n), Counted(n));
  }

  lemma SameNumber(a: Date, b: Date)
    requires Valid(a) && Valid(b) && DayNumber(a) == DayNumber(b)
    ensures a == b
  {
    hide DayNumber, Valid;
    if Before(a, b) {
      NumbersRise(a, b);
    } else if Before(b, a) {
      NumbersRise(b, a);
    }
  }

  /** A stamp's time of day is one, and with the day count it says the second exactly. */
  lemma TimeOfDayExact(secs: nat)
    ensures var s := Stamped(secs);
      && s.date == Civil(secs / 86400) && s.hour < 24 && s.minute < 60 && s.second < 60
      && secs / 86400 * 86400 + s.hour * 3600 + s.minute * 60 + s.second == secs
  {
    hide Civil;
    var rem := secs % 86400;
    assert rem / 60 / 60 == rem / 3600;
  }
}
