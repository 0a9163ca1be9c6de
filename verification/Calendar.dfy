/** C++ integer division and remainder, which truncate toward zero. */
module CArith {
  function TruncDiv(a: int, b: int): (q: int)
    requires b > 0
  {
    if a >= 0 then a / b else -((-a) / b)
  }

  function TruncMod(a: int, b: int): (r: int)
    requires b > 0
  {
    a - b * TruncDiv(a, b)
  }
}

/**
 The proleptic Gregorian calendar and the two conversions between a civil date and
 its Julian day number, as straight-line chains of truncating divisions.
 */
module Calendar {
  import opened CArith

  datatype YearMonthDay = YearMonthDay(year: int, month: int, day: int)

  // ----- the calendar, as people define it -----

  predicate IsLeapYear(year: int) {
    year % 400 == 0 || (year % 100 != 0 && year % 4 == 0)
  }

  function DaysOfMonth(year: int, month: int): int
    requires 1 <= month <= 12
  {
    if month == 2 then (if IsLeapYear(year) then 29 else 28)
    else if month == 4 || month == 6 || month == 9 || month == 11 then 30
    else 31
  }

  predicate ValidDate(d: YearMonthDay) {
    1 <= d.month <= 12 && 1 <= d.day <= DaysOfMonth(d.year, d.month)
  }

  /** The next civil date. */
  function Tomorrow(d: YearMonthDay): (t: YearMonthDay)
    requires ValidDate(d)
    ensures ValidDate(t)
  {
    if d.day < DaysOfMonth(d.year, d.month) then d.(day := d.day + 1)
    else if d.month < 12 then YearMonthDay(d.year, d.month + 1, 1)
    else YearMonthDay(d.year + 1, 1, 1)
  }

  // ----- the program's conversions -----

  function JulianDayNumber(d: YearMonthDay): int {
    var a := TruncDiv(14 - d.month, 12);
    var y := d.year + 4800 - a;
    var m := d.month + 12 * a - 3;
    d.day + TruncDiv(153 * m + 2, 5) + y * 365 + TruncDiv(y, 4) - TruncDiv(y, 100) + TruncDiv(y, 400) - 32045
  }

  function ToYearMonthDay(julianDayNumber: int): YearMonthDay {
    var a := julianDayNumber + 32044;
    var b := TruncDiv(4 * a + 3, 146097);
    var c := a - TruncDiv(b * 146097, 4);
    WithinCentury(b, c)
  }

  /** The part of the conversion after the century b is known. */
  function WithinCentury(b: int, c: int): YearMonthDay {
    var d := TruncDiv(4 * c + 3, 1461);
    var e := c - TruncDiv(1461 * d, 4);
    WithinYear(b * 100 + d, e)
  }

  /** The part of the conversion after the year is known. */
  function WithinYear(y: int, e: int): YearMonthDay {
    var m := TruncDiv(5 * e + 2, 153);
    YearMonthDay(
      y - 4800 + TruncDiv(m, 10),
      m + 3 - 12 * TruncDiv(m, 10),
      e - TruncDiv(153 * m + 2, 5) + 1)
  }

  /** The first day both conversions agree on: 1 March of the year -4800. */
  const FirstDay := -32044

  predicate OnOrAfterFirstDay(d: YearMonthDay) {
    d.year > -4800 || (d.year == -4800 && d.month >= 3)
  }

  // ----- years that start in March -----

  /** A date as the year, month and day offset of a year that begins on 1 March of -4800. */
  datatype MarchDate = MarchDate(y: int, m: int, d: int)

  function March(d: YearMonthDay): MarchDate {
    if d.month <= 2 then MarchDate(d.year + 4799, d.month + 9, d.day - 1)
    else MarchDate(d.year + 4800, d.month - 3, d.day - 1)
  }

  predicate ValidMarch(p: MarchDate) {
    && 0 <= p.m <= 11
    && 0 <= p.d < MarchMonthDays(p.y, p.m)
  }

  /** The length of a month of a March year; its February belongs to the next civil year. */
  function MarchMonthDays(y: int, m: int): int {
    if m == 11 then (if IsLeapYear(y + 1) then 29 else 28)
    else if m == 1 || m == 3 || m == 6 || m == 8 then 30
    else 31
  }

  function MonthStart(m: int): int {
    (153 * m + 2) / 5
  }

  lemma ShiftedMod(x: int, n: int, q: int)
    requires n > 0 && 4800 == n * q
    ensures (x + 4800) % n == x % n
  {
    var d, r := x / n, x % n;
    assert x + 4800 == n * (d + q) + r;
    QuotientUnique(x + 4800, n, d + q, r);
  }

  lemma QuotientUnique(x: int, n: int, q: int, r: int)
    requires x == n * q + r && 0 <= r < n
    ensures x % n == r
  {
    var d := x / n - q;
    assert n * (x / n) + x % n == x;
    assert n * d == r - x % n;
    SmallMultiple(n, d);
  }

  lemma SmallMultiple(n: int, d: int)
    requires -n < n * d < n
    ensures d == 0
  {
    assert n > 0;
    assert d >= 1 ==> n * d >= n;
    assert d <= -1 ==> n * d <= -n;
  }

  lemma LeapRepeats(year: int)
    ensures IsLeapYear(year + 4800) <==> IsLeapYear(year)
  {
    ShiftedMod(year, 400, 12);
    ShiftedMod(year, 100, 48);
    ShiftedMod(year, 4, 1200);
  }

  /** A month has the same length in its civil and in its March year. */
  lemma MonthLengthsAgree(year: int, month: int)
    requires 1 <= month <= 12
    ensures var p := March(YearMonthDay(year, month, 1));
      0 <= p.m <= 11 && MarchMonthDays(p.y, p.m) == DaysOfMonth(year, month)
  {
    hide IsLeapYear;
    LeapRepeats(year);
    if month == 2 {
      assert March(YearMonthDay(year, month, 1)).y + 1 == year + 4800;
    }
  }

  lemma MarchIsValid(d: YearMonthDay)
    requires ValidDate(d)
    ensures ValidMarch(March(d))
    ensures OnOrAfterFirstDay(d) <==> March(d).y >= 0
  {
    hide IsLeapYear;
    MonthLengthsAgree(d.year, d.month);
  }

  /** Offset of a date within its March year. */
  function DayOfYear(p: MarchDate): int {
    MonthStart(p.m) + p.d
  }

  lemma DayOfYearBound(p: MarchDate)
    requires ValidMarch(p)
    ensures 0 <= DayOfYear(p) <= 365
    ensures DayOfYear(p) == 365 ==> IsLeapYear(p.y + 1)
  {
  }

  lemma CenturyRecovered(b: int, c: int)
    requires b >= 0 && 0 <= c <= 36524
    requires c == 36524 ==> b % 4 == 3
    ensures (4 * ((146097 * b) / 4 + c) + 3) / 146097 == b
  {
    var x := 4 * ((146097 * b) / 4 + c) + 3;
    assert (146097 * b) / 4 == 36524 * b + b / 4;
    assert 146097 * b <= x < 146097 * (b + 1);
  }

  lemma YearRecovered(yc: int, doy: int)
    requires 0 <= yc < 100 && 0 <= doy <= 365
    requires doy == 365 ==> yc % 4 == 3
    ensures var c := 365 * yc + yc / 4 + doy;
      (4 * c + 3) / 1461 == yc && (1461 * yc) / 4 == 365 * yc + yc / 4
  {
    var x := 4 * (365 * yc + yc / 4 + doy) + 3;
    assert 1461 * yc <= x < 1461 * (yc + 1);
  }

  lemma MonthRecovered(p: MarchDate)
    requires ValidMarch(p)
    ensures (5 * DayOfYear(p) + 2) / 153 == p.m
  {
  }

  lemma LeapMod(x: int, q: int, r: int)
    requires x == 4 * q + r
    ensures x % 4 == r % 4
  {
  }

  lemma LeapAtCenturyEnd(b: int, yc: int)
    requires b >= 0 && 0 <= yc < 100 && IsLeapYear(100 * b + yc + 1)
    ensures yc % 4 == 3
    ensures yc == 99 ==> b % 4 == 3
  {
    var x := 100 * b + yc + 1;
    LeapMod(x, 25 * b, yc + 1);
    if yc == 99 {
      assert x == 100 * (b + 1);
      assert x % 100 == 0;
      assert x % 400 == 0;
    }
  }

  lemma YearOffsetBound(yc: int, doy: int)
    requires 0 <= yc < 100 && 0 <= doy <= 365
    requires doy == 365 ==> yc % 4 == 3
    ensures var c := 365 * yc + yc / 4 + doy;
      0 <= c <= 36524 && (c == 36524 ==> yc == 99 && doy == 365)
  {
  }

  lemma CenturyOffsetBound(p: MarchDate, b: int, yc: int)
    requires ValidMarch(p) && p.y == 100 * b + yc && b >= 0 && 0 <= yc < 100
    ensures var c := 365 * yc + yc / 4 + DayOfYear(p);
      0 <= c <= 36524 && (c == 36524 ==> b % 4 == 3)
    ensures DayOfYear(p) == 365 ==> yc % 4 == 3
  {
    DayOfYearBound(p);
    if DayOfYear(p) == 365 {
      LeapAtCenturyEnd(b, yc);
    }
    YearOffsetBound(yc, DayOfYear(p));
  }

  /** Days from the first day to the start of a March year. */
  function YearStart(y: int): int {
    365 * y + y / 4 - y / 100 + y / 400
  }

  function DayIndex(p: MarchDate): int {
    YearStart(p.y) + DayOfYear(p)
  }

  lemma JulianDayIsIndex(d: YearMonthDay)
    requires ValidDate(d) && OnOrAfterFirstDay(d)
    ensures JulianDayNumber(d) == DayIndex(March(d)) + FirstDay
  {
  }

  lemma YearStartSplit(b: int, yc: int)
    requires b >= 0 && 0 <= yc < 100
    ensures YearStart(100 * b + yc) == (146097 * b) / 4 + 365 * yc + yc / 4
  {
    var y := 100 * b + yc;
    assert y / 4 == 25 * b + yc / 4;
    assert y / 100 == b;
    assert y / 400 == b / 4;
    assert (146097 * b) / 4 == 36524 * b + b / 4;
  }

  function Civil(p: MarchDate): YearMonthDay {
    YearMonthDay(p.y - 4800 + p.m / 10, p.m + 3 - 12 * (p.m / 10), p.d + 1)
  }

  lemma CenturyStep(b: int, c: int)
    requires b >= 0 && 0 <= c <= 36524
    requires c == 36524 ==> b % 4 == 3
    ensures ToYearMonthDay((146097 * b) / 4 + c + FirstDay) == WithinCentury(b, c)
  {
    hide WithinCentury;
    CenturyRecovered(b, c);
  }

  lemma YearStep(b: int, yc: int, doy: int)
    requires b >= 0 && 0 <= yc < 100 && 0 <= doy <= 365
    requires doy == 365 ==> yc % 4 == 3
    ensures WithinCentury(b, 365 * yc + yc / 4 + doy) == WithinYear(b * 100 + yc, doy)
  {
    hide WithinYear;
    YearRecovered(yc, doy);
  }

  lemma MonthStep(p: MarchDate)
    requires ValidMarch(p)
    ensures WithinYear(p.y, DayOfYear(p)) == Civil(p)
  {
    MonthRecovered(p);
  }

  /** The chain of divisions recovers century, year, month and day from the index of a day. */
  lemma ToYearMonthDayOfIndex(p: MarchDate, b: int, yc: int)
    requires ValidMarch(p) && p.y == 100 * b + yc && b >= 0 && 0 <= yc < 100
    ensures ToYearMonthDay(DayIndex(p) + FirstDay) == Civil(p)
  {
    hide ToYearMonthDay, WithinCentury, WithinYear;
    var doy := DayOfYear(p);
    var c := 365 * yc + yc / 4 + doy;
    assert 0 <= doy <= 365 by { DayOfYearBound(p); }
    CenturyOffsetBound(p, b, yc);
    assert DayIndex(p) == (146097 * b) / 4 + c by { YearStartSplit(b, yc); }
    CenturyStep(b, c);
    YearStep(b, yc, doy);
    MonthStep(p);
  }

  /** Converting a date to its day number and back gives the date, for every date from the first day on. */
  lemma DateRoundTrip(d: YearMonthDay)
    requires ValidDate(d) && OnOrAfterFirstDay(d)
    ensures ToYearMonthDay(JulianDayNumber(d)) == d
    ensures JulianDayNumber(d) >= FirstDay
  {
    hide ToYearMonthDay, JulianDayNumber, DayIndex, Civil, March;
    MarchIsValid(d);
    var p := March(d);
    IndexNonNegative(p);
    JulianDayIsIndex(d);
    ToYearMonthDayOfIndex(p, p.y / 100, p.y % 100);
    CivilOfMarch(d);
  }

  lemma CivilOfMarch(d: YearMonthDay)
    requires ValidDate(d)
    ensures Civil(March(d)) == d
  {
  }

  lemma IndexNonNegative(p: MarchDate)
    requires ValidMarch(p) && p.y >= 0
    ensures DayIndex(p) >= 0
  {
  }

  lemma MarchOfTomorrow(d: YearMonthDay)
    requires ValidDate(d)
    ensures var p, q := March(d), March(Tomorrow(d));
      || (q == p.(d := p.d + 1))
      || (p.d + 1 == MarchMonthDays(p.y, p.m) && p.m < 11 && q == MarchDate(p.y, p.m + 1, 0))
      || (p.d + 1 == MarchMonthDays(p.y, p.m) && p.m == 11 && q == MarchDate(p.y + 1, 0, 0))
  {
    hide IsLeapYear, DaysOfMonth, MarchMonthDays;
    MonthLengthsAgree(d.year, d.month);
  }

  lemma NextQuotient(y: int, n: int)
    requires y >= 0 && (n == 4 || n == 100 || n == 400)
    ensures (y + 1) / n == y / n + (if (y + 1) % n == 0 then 1 else 0)
  {
  }

  lemma MarchYearLength(y: int)
    requires y >= 0
    ensures YearStart(y + 1) == YearStart(y) + MonthStart(11) + MarchMonthDays(y, 11)
  {
    NextQuotient(y, 4);
    NextQuotient(y, 100);
    NextQuotient(y, 400);
    LeapSum(y + 1);
  }

  lemma LeapSum(y: int)
    requires y >= 1
    ensures (if y % 4 == 0 then 1 else 0) - (if y % 100 == 0 then 1 else 0) + (if y % 400 == 0 then 1 else 0)
      == if IsLeapYear(y) then 1 else 0
  {
    assert y % 400 == 0 ==> y % 100 == 0;
    assert y % 100 == 0 ==> y % 4 == 0;
  }

  lemma IndexOfTomorrow(d: YearMonthDay)
    requires ValidDate(d) && March(d).y >= 0
    ensures DayIndex(March(Tomorrow(d))) == DayIndex(March(d)) + 1
  {
    hide IsLeapYear, YearStart;
    MarchOfTomorrow(d);
    MarchYearLength(March(d).y);
  }

  /** The day number counts days: the next civil date, across every month end and leap rule, is one larger. */
  lemma TomorrowIsOneMore(d: YearMonthDay)
    requires ValidDate(d) && OnOrAfterFirstDay(d)
    ensures OnOrAfterFirstDay(Tomorrow(d))
    ensures JulianDayNumber(Tomorrow(d)) == JulianDayNumber(d) + 1
  {
    MarchIsValid(d);
    IndexOfTomorrow(d);
    JulianDayIsIndex(d);
    JulianDayIsIndex(Tomorrow(d));
  }

  // ----- before the first day -----

  /** Leap years among n consecutive years. */
  function Leaps(n: nat): int {
    n / 4 - n / 100 + n / 400
  }

  lemma EarlyDayNumber(d: YearMonthDay)
    requires ValidDate(d) && March(d).y <= 0
    ensures var p := March(d); JulianDayNumber(d) == 365 * p.y - Leaps(-p.y) + DayOfYear(p) + FirstDay
  {
  }

  lemma LeapSign(y: int)
    ensures IsLeapYear(-y) <==> IsLeapYear(y)
  {
  }

  lemma OneLeapMore(n: nat)
    requires n > 0
    ensures Leaps(n) == Leaps(n - 1) + if IsLeapYear(n) then 1 else 0
  {
    NextQuotient(n - 1, 4);
    NextQuotient(n - 1, 100);
    NextQuotient(n - 1, 400);
    LeapSum(n);
  }

  lemma NeighboursNotBothLeap(y: int)
    ensures !(IsLeapYear(y) && IsLeapYear(y + 1))
  {
  }

  predicate LastOfFebruary(d: YearMonthDay) {
    d.month == 2 && d.day == DaysOfMonth(d.year, 2)
  }

  /**
   Before the first day, truncation moves the leap day of the count a year away from the
   calendar's: the count then fails exactly at the end of a February of a leap year or of the
   year after one.
   */
  lemma TomorrowIsOneMoreExactly(d: YearMonthDay)
    requires ValidDate(d)
    ensures JulianDayNumber(Tomorrow(d)) == JulianDayNumber(d) + 1 <==>
      OnOrAfterFirstDay(d) || !LastOfFebruary(d) || (!IsLeapYear(d.year) && !IsLeapYear(d.year - 1))
  {
    hide JulianDayNumber, IsLeapYear, Leaps;
    MarchIsValid(d);
    if OnOrAfterFirstDay(d) {
      TomorrowIsOneMore(d);
    } else {
      var p := March(d);
      MarchOfTomorrow(d);
      EarlyDayNumber(d);
      EarlyDayNumber(Tomorrow(d));
      OneLeapMore(-p.y);
      LeapSign(p.y);
      LeapRepeats(d.year);
      LeapRepeats(d.year - 1);
      NeighboursNotBothLeap(d.year - 1);
    }
  }

  /** The date n days after d, by walking the calendar one day at a time. */
  function DaysLater(d: YearMonthDay, n: nat): (r: YearMonthDay)
    requires ValidDate(d)
    ensures ValidDate(r)
  {
    if n == 0 then d else Tomorrow(DaysLater(d, n - 1))
  }

  lemma {:induction false} DayNumberCountsDays(d: YearMonthDay, n: nat)
    requires ValidDate(d) && OnOrAfterFirstDay(d)
    ensures OnOrAfterFirstDay(DaysLater(d, n))
    ensures JulianDayNumber(DaysLater(d, n)) == JulianDayNumber(d) + n
  {
    hide ToYearMonthDay, JulianDayNumber;
    if n > 0 {
      DayNumberCountsDays(d, n - 1);
      TomorrowIsOneMore(DaysLater(d, n - 1));
    }
  }

  lemma DateWithNumber(j: int) returns (d: YearMonthDay)
    requires j >= FirstDay
    ensures ValidDate(d) && OnOrAfterFirstDay(d) && JulianDayNumber(d) == j
  {
    var first := YearMonthDay(-4800, 3, 1);
    var n := j - FirstDay;
    DayNumberCountsDays(first, n);
    d := DaysLater(first, n);
    assert JulianDayNumber(first) == FirstDay;
  }

  lemma SameNumberSameDate(d1: YearMonthDay, d2: YearMonthDay)
    requires ValidDate(d1) && OnOrAfterFirstDay(d1)
    requires ValidDate(d2) && OnOrAfterFirstDay(d2)
    requires JulianDayNumber(d1) == JulianDayNumber(d2)
    ensures d1 == d2
  {
    hide ToYearMonthDay, JulianDayNumber;
    var back := ToYearMonthDay(JulianDayNumber(d1));
    assert back == d1 by { DateRoundTrip(d1); }
    assert back == d2 by { DateRoundTrip(d2); }
  }

  /** Every day number from the first day on names a valid date, and converting back gives the number. */
  lemma DayNumberRoundTrip(j: int)
    requires j >= FirstDay
    ensures ValidDate(ToYearMonthDay(j)) && OnOrAfterFirstDay(ToYearMonthDay(j))
    ensures JulianDayNumber(ToYearMonthDay(j)) == j
  {
    hide ToYearMonthDay, JulianDayNumber;
    var d := DateWithNumber(j);
    var back := ToYearMonthDay(j);
    assert back == d by { DateRoundTrip(d); }
  }

  /** Subtracting day numbers is the number of days to walk from one date to the other. */
  lemma DifferenceCountsDays(d1: YearMonthDay, d2: YearMonthDay)
    requires ValidDate(d1) && OnOrAfterFirstDay(d1)
    requires ValidDate(d2) && OnOrAfterFirstDay(d2)
    requires JulianDayNumber(d1) <= JulianDayNumber(d2)
    ensures DaysLater(d1, JulianDayNumber(d2) - JulianDayNumber(d1)) == d2
  {
    DifferenceByWalking(d1, d2, JulianDayNumber(d2) - JulianDayNumber(d1));
  }

  lemma DifferenceByWalking(d1: YearMonthDay, d2: YearMonthDay, n: nat)
    requires ValidDate(d1) && OnOrAfterFirstDay(d1)
    requires ValidDate(d2) && OnOrAfterFirstDay(d2)
    requires JulianDayNumber(d2) == JulianDayNumber(d1) + n
    ensures DaysLater(d1, n) == d2
  {
    hide ToYearMonthDay, JulianDayNumber;
    DayNumberCountsDays(d1, n);
    SameNumberSameDate(DaysLater(d1, n), d2);
  }

  // ----- before the first day -----

  /** With truncating division no earlier day number is taken to a date: the day of the month is never positive. */
  lemma EarlierNumbersAreNotDates(j: int)
    requires j < FirstDay
    ensures ToYearMonthDay(j).day <= 0
  {
    var a := j + 32044;
    var b := TruncDiv(4 * a + 3, 146097);
    var c := a - TruncDiv(b * 146097, 4);
    assert c < 0 by { NegativeStep(a, 146097); }
    NegativeCentury(b, c);
  }

  lemma NegativeCentury(b: int, c: int)
    requires c < 0
    ensures WithinCentury(b, c).day <= 0
  {
    var d := TruncDiv(4 * c + 3, 1461);
    var e := c - TruncDiv(1461 * d, 4);
    assert e < 0 by { NegativeStep(c, 1461); }
    NegativeYear(b * 100 + d, e);
  }

  lemma NegativeYear(y: int, e: int)
    requires e < 0
    ensures WithinYear(y, e).day <= 0
  {
  }

  lemma NegativeStep(a: int, period: int)
    requires a < 0 && (period == 146097 || period == 1461)
    ensures a - TruncDiv(TruncDiv(4 * a + 3, period) * period, 4) < 0
  {
  }

  /**
   The exact domain: a number becomes a calendar date with that number if and only if it is not
   below the first day's.
   */
  lemma DayNumberRoundTripExactly(j: int)
    ensures ValidDate(ToYearMonthDay(j)) && JulianDayNumber(ToYearMonthDay(j)) == j <==> j >= FirstDay
  {
    hide ToYearMonthDay, JulianDayNumber;
    if j >= FirstDay {
      DayNumberRoundTrip(j);
    } else {
      EarlierNumbersAreNotDates(j);
    }
  }

  /** The exact domain of the date round trip. */
  lemma DateRoundTripExactly(d: YearMonthDay)
    requires ValidDate(d)
    ensures ToYearMonthDay(JulianDayNumber(d)) == d <==> OnOrAfterFirstDay(d)
  {
    hide ToYearMonthDay, JulianDayNumber;
    if OnOrAfterFirstDay(d) {
      DateRoundTrip(d);
    } else if JulianDayNumber(d) < FirstDay {
      EarlierNumbersAreNotDates(JulianDayNumber(d));
    } else {
      DayNumberRoundTrip(JulianDayNumber(d));
    }
  }
}
