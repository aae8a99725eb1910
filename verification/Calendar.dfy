/** Calendar arithmetic: seconds since 1970 to broken-down time and back, for all times. The reference
    is the count of leap days in section 4.16 of IEEE Std 1003.1-2017, extended to all years by
    rounding down, and shown to step by the length of every year of the Gregorian calendar. */
module Calendar {

  const EPOCH_YR: int := 1970
  const YEAR0: int := 1900
  const SECS_DAY: int := 86400
  const FOURCENTURIES: int := 400 * 365 + 100 - 3

  predicate Leap(year: int) { year % 4 == 0 && (year % 100 != 0 || year % 400 == 0) }

  function YearSize(year: int): int { if Leap(year) then 366 else 365 }

  function MonthSize(leap: bool, mon: int): int
    requires 0 <= mon < 12
  {
    if mon == 1 then (if leap then 29 else 28) else if mon == 3 || mon == 5 || mon == 8 || mon == 10 then 30 else 31
  }

  /** Days of the year before the month. */
  function MonthStart(leap: bool, mon: int): int
    requires 0 <= mon <= 12
    decreases mon
  {
    if mon == 0 then 0 else MonthStart(leap, mon - 1) + MonthSize(leap, mon - 1)
  }

  /** Broken-down time: the year counts from 1900, the month from 0. */
  datatype Fields = Fields(sec: int, min: int, hour: int, mday: int, mon: int, year: int, wday: int, yday: int)

  /** Days from the first day of 1970 to the first day of the year, as section 4.16 of IEEE Std
      1003.1-2017 counts leap days, with division rounding down so that it holds for all years. */
  function YearStart(year: int): int {
    365 * (year - 1970) + (year - 1969) / 4 - (year - 1901) / 100 + (year - 1601) / 400
  }

  /** Seconds Since the Epoch, section 4.16 of IEEE Std 1003.1-2017. */
  function PosixSeconds(f: Fields): int {
    f.sec + f.min * 60 + f.hour * 3600 + (f.yday + YearStart(f.year + YEAR0)) * SECS_DAY
  }

  /** The fields are in range and fit together. */
  predicate Proper(f: Fields) {
    && 0 <= f.sec < 60 && 0 <= f.min < 60 && 0 <= f.hour < 24 && 0 <= f.mon < 12
    && 1 <= f.mday <= MonthSize(Leap(f.year + YEAR0), f.mon)
    && f.yday == MonthStart(Leap(f.year + YEAR0), f.mon) + f.mday - 1
    && f.wday == (f.yday + YearStart(f.year + YEAR0) + 4) % 7
  }

  /** The Gregorian calendar time at t seconds from the epoch. */
  predicate TimeAt(f: Fields, t: int) { Proper(f) && PosixSeconds(f) == t }

  /** Long and short months alternate from January to July and from August to December, but for February. */
  lemma Alternate(leap: bool, mon: int)
    requires 0 <= mon < 12 && mon != 1
    ensures MonthSize(leap, mon) == 31 - mon % 7 % 2 && MonthSize(leap, 1) == (if leap then 29 else 28)
  {
  }

  /** Time 0 is midnight on Thursday, 1 January 1970, and the last second of Tuesday, 29 February 2000 is known. */
  lemma Known()
    ensures TimeAt(Fields(0, 0, 0, 1, 0, 70, 4, 0), 0)
    ensures TimeAt(Fields(59, 59, 23, 29, 1, 100, 2, 59), 951868799)
  {
    assert YearStart(1970) == 0 && YearStart(2000) == 10957 && MonthStart(true, 1) == 31;
  }

  // ---------------------------------------------------------------- years and months

  lemma Every4(y: int)
    ensures (y - 1968) / 4 == (y - 1969) / 4 + if y % 4 == 0 then 1 else 0
  {
  }

  lemma Every100(y: int)
    ensures (y - 1900) / 100 == (y - 1901) / 100 + if y % 100 == 0 then 1 else 0
  {
  }

  lemma Every400(y: int)
    ensures (y - 1600) / 400 == (y - 1601) / 400 + if y % 400 == 0 then 1 else 0
  {
    var q, r := (y - 1601) / 400, (y - 1601) % 400;
    assert y - 1601 == 400 * q + r;
    if r == 399 {
      assert y - 1600 == 400 * (q + 1) && y == 400 * (q + 5);
    } else {
      assert y - 1600 == 400 * q + (r + 1) && y == 400 * (q + 4) + (r + 1);
    }
  }

  lemma Multiple(m: int, y: int)
    requires y == 100 * m
    ensures y % 100 == 0
  {
  }

  lemma MultipleOf4(m: int, y: int)
    requires y == 4 * m
    ensures y % 4 == 0
  {
  }

  lemma Divides(y: int)
    ensures y % 400 == 0 ==> y % 100 == 0
    ensures y % 100 == 0 ==> y % 4 == 0
  {
    var q, r := y / 400, y / 100;
    if y == 400 * q { Multiple(4 * q, y); }
    if y == 100 * r { MultipleOf4(25 * r, y); }
  }

  /** The day count of the standard steps by the length of every Gregorian year. */
  lemma YearStep(year: int)
    ensures YearStart(year + 1) == YearStart(year) + YearSize(year)
  {
    Every4(year);
    Every100(year);
    Every400(year);
    Divides(year);
    assert year + 1 - 1969 == year - 1968 && year + 1 - 1901 == year - 1900 && year + 1 - 1601 == year - 1600;
    assert YearStart(year + 1) == 365 * (year - 1970) + 365 + (year - 1968) / 4 - (year - 1900) / 100
      + (year - 1600) / 400;
  }

  lemma Shift4(y: int, n: int)
    ensures (y + 400 * n) / 4 == y / 4 + 100 * n && (y + 400 * n) % 4 == y % 4
  {
  }

  lemma Shift100(y: int, n: int)
    ensures (y + 400 * n) / 100 == y / 100 + 4 * n && (y + 400 * n) % 100 == y % 100
  {
  }

  lemma Shift400(y: int, n: int)
    ensures (y + 400 * n) / 400 == y / 400 + n && (y + 400 * n) % 400 == y % 400
  {
  }

  /** It repeats after 400 years. */
  lemma Cycle(year: int, n: int)
    ensures YearStart(year + 400 * n) == YearStart(year) + FOURCENTURIES * n
    ensures Leap(year + 400 * n) <==> Leap(year)
  {
    Shift4(year - 1969, n);
    Shift100(year - 1901, n);
    Shift400(year - 1601, n);
    Shift4(year, n);
    Shift100(year, n);
    Shift400(year, n);
  }

  lemma WeekCycle(day: int, n: int)
    ensures (day + FOURCENTURIES * n) % 7 == day % 7
  {
    assert FOURCENTURIES == 7 * 20871;
    assert day + FOURCENTURIES * n == day + 7 * (20871 * n);
  }

  lemma {:induction false} YearsAscend(y: int, z: int)
    requires y < z
    ensures YearStart(y) + YearSize(y) <= YearStart(z)
    decreases z - y
  {
    YearStep(z - 1);
    if y < z - 1 { YearsAscend(y, z - 1); }
  }

  lemma {:induction false} MonthsAscend(leap: bool, m: int, n: int)
    requires 0 <= m < n <= 12
    ensures MonthStart(leap, m) + MonthSize(leap, m) <= MonthStart(leap, n)
    decreases n
  {
    if m < n - 1 { MonthsAscend(leap, m, n - 1); }
  }

  lemma TwelveMonths(leap: bool)
    ensures MonthStart(leap, 11) == if leap then 335 else 334
    ensures MonthStart(leap, 12) == if leap then 366 else 365
  {
    assert MonthStart(leap, 3) == if leap then 91 else 90;
    assert MonthStart(leap, 6) == MonthStart(leap, 3) + 91;
    assert MonthStart(leap, 9) == MonthStart(leap, 6) + 92;
  }

  lemma YdayInYear(f: Fields)
    requires Proper(f)
    ensures 0 <= f.yday < YearSize(f.year + YEAR0)
  {
    var leap := Leap(f.year + YEAR0);
    TwelveMonths(leap);
    MonthsAscend(leap, f.mon, 12);
    if f.mon > 0 { MonthsAscend(leap, 0, f.mon); }
  }

  lemma SameYear(y: int, z: int, d: int, e: int)
    requires YearStart(y) + d == YearStart(z) + e && 0 <= d < YearSize(y) && 0 <= e < YearSize(z)
    ensures y == z && d == e
  {
    if y < z { YearsAscend(y, z); }
    if z < y { YearsAscend(z, y); }
  }

  lemma SameMonth(leap: bool, m: int, n: int, d: int, e: int)
    requires 0 <= m < 12 && 0 <= n < 12 && MonthStart(leap, m) + d == MonthStart(leap, n) + e
    requires 1 <= d <= MonthSize(leap, m) && 1 <= e <= MonthSize(leap, n)
    ensures m == n && d == e
  {
    if m < n { MonthsAscend(leap, m, n); }
    if n < m { MonthsAscend(leap, n, m); }
  }

  /** Day and second of the day from the total. */
  lemma DayOf(f: Fields, t: int)
    requires TimeAt(f, t)
    ensures t / SECS_DAY == f.yday + YearStart(f.year + YEAR0)
    ensures t % SECS_DAY == f.sec + f.min * 60 + f.hour * 3600
  {
  }

  lemma SameClock(s: int, m: int, h: int, s': int, m': int, h': int)
    requires 0 <= s < 60 && 0 <= m < 60 && 0 <= s' < 60 && 0 <= m' < 60
    requires s + m * 60 + h * 3600 == s' + m' * 60 + h' * 3600
    ensures s == s' && m == m' && h == h'
  {
    assert (s - s') + 60 * ((m - m') + 60 * (h - h')) == 0;
  }

  lemma SameDay(f: Fields, g: Fields)
    requires Proper(f) && Proper(g) && f.yday + YearStart(f.year + YEAR0) == g.yday + YearStart(g.year + YEAR0)
    ensures f.year == g.year && f.yday == g.yday && f.mon == g.mon && f.mday == g.mday && f.wday == g.wday
  {
    YdayInYear(f);
    YdayInYear(g);
    SameYear(f.year + YEAR0, g.year + YEAR0, f.yday, g.yday);
    SameMonth(Leap(f.year + YEAR0), f.mon, g.mon, f.mday, g.mday);
  }

  /** Every time has one calendar form. */
  lemma TimeUnique(f: Fields, g: Fields, t: int)
    requires TimeAt(f, t) && TimeAt(g, t)
    ensures f == g
  {
    DayOf(f, t);
    DayOf(g, t);
    SameClock(f.sec, f.min, f.hour, g.sec, g.min, g.hour);
    SameDay(f, g);
  }

  // ---------------------------------------------------------------- the two functions

  class Tm {
    var tm_sec: int
    var tm_min: int
    var tm_hour: int
    var tm_mday: int
    var tm_mon: int
    var tm_year: int
    var tm_wday: int
    var tm_yday: int

    function Value(): Fields
      reads this
    {
      Fields(tm_sec, tm_min, tm_hour, tm_mday, tm_mon, tm_year, tm_wday, tm_yday)
    }

    constructor ()
      ensures Value() == Fields(0, 0, 0, 0, 0, 0, 0, 0)
    {
      tm_sec, tm_min, tm_hour, tm_mday, tm_mon, tm_year, tm_wday, tm_yday := 0, 0, 0, 0, 0, 0, 0, 0;
    }
  }

  /** Whole cycles of 400 years bring the time to the years from `year` to `year` + 399. */
  method ToCycle(timer: int) returns (year: int, dayno: int, dayclock: int)
    ensures YearStart(year) + dayno == timer / SECS_DAY && dayclock == timer % SECS_DAY
    ensures 0 <= dayno < FOURCENTURIES && (dayno + 4) % 7 == (timer / SECS_DAY + 4) % 7
  {
    var time := timer;
    year := EPOCH_YR;
    ghost var cycles := 0;
    if time < 0 {
      var shift := (-time - 1) / (FOURCENTURIES * SECS_DAY) + 1;
      time := time + shift * (FOURCENTURIES * SECS_DAY);
      year := year - shift * 400;
      cycles := -shift;
    }
    dayclock, dayno := time % SECS_DAY, time / SECS_DAY;
    InCycle(timer, cycles, time);
    year := year + 400 * (dayno / FOURCENTURIES);
    dayno := dayno % FOURCENTURIES;
  }

  lemma InCycle(timer: int, n: int, time: int)
    requires time == timer - n * (FOURCENTURIES * SECS_DAY)
    ensures var day := time / SECS_DAY;
      && YearStart(EPOCH_YR + 400 * n + 400 * (day / FOURCENTURIES)) + day % FOURCENTURIES == timer / SECS_DAY
      && (day % FOURCENTURIES + 4) % 7 == (timer / SECS_DAY + 4) % 7 && time % SECS_DAY == timer % SECS_DAY
  {
    var day := time / SECS_DAY;
    var m := n + day / FOURCENTURIES;
    Shifted(timer, n, time);
    assert EPOCH_YR + 400 * n + 400 * (day / FOURCENTURIES) == EPOCH_YR + 400 * m;
    Cycle(EPOCH_YR, m);
    WeekCycle(day % FOURCENTURIES + 4, m);
  }

  lemma Shifted(timer: int, n: int, time: int)
    requires time == timer - n * (FOURCENTURIES * SECS_DAY)
    ensures time % SECS_DAY == timer % SECS_DAY && time / SECS_DAY == timer / SECS_DAY - n * FOURCENTURIES
  {
    var k := n * FOURCENTURIES;
    assert timer == time + k * SECS_DAY;
  }

  /** Year by year to the year of the day. */
  method ToYear(year0: int, dayno0: int) returns (year: int, dayno: int)
    requires dayno0 >= 0
    ensures YearStart(year) + dayno == YearStart(year0) + dayno0 && 0 <= dayno < YearSize(year)
  {
    year, dayno := year0, dayno0;
    while dayno >= YearSize(year)
      invariant dayno >= 0 && YearStart(year) + dayno == YearStart(year0) + dayno0
      decreases dayno
    {
      YearStep(year);
      dayno := dayno - YearSize(year);
      year := year + 1;
    }
  }

  /** Month by month to the month of the day. */
  method ToMonth(leap: bool, yday: int) returns (mon: int, dayno: int)
    requires 0 <= yday < if leap then 366 else 365
    ensures 0 <= mon < 12 && MonthStart(leap, mon) + dayno == yday && 0 <= dayno < MonthSize(leap, mon)
  {
    mon, dayno := 0, yday;
    TwelveMonths(leap);
    while dayno >= MonthSize(leap, mon)
      invariant 0 <= mon < 12 && dayno >= 0 && MonthStart(leap, mon) + dayno == yday
      decreases dayno
    {
      dayno := dayno - MonthSize(leap, mon);
      mon := mon + 1;
    }
  }

  /** GmTimeR, for all times, negative ones as well. */
  method GmTimeR(timer: int, tmbuf: Tm)
    modifies tmbuf
    ensures TimeAt(tmbuf.Value(), timer)
  {
    var year, dayno, dayclock := ToCycle(timer);
    tmbuf.tm_sec := dayclock % 60;
    tmbuf.tm_min := dayclock % 3600 / 60;
    tmbuf.tm_hour := dayclock / 3600;
    tmbuf.tm_wday := (dayno + 4) % 7;
    year, dayno := ToYear(year, dayno);
    tmbuf.tm_year := year - YEAR0;
    tmbuf.tm_yday := dayno;
    var mon;
    mon, dayno := ToMonth(Leap(year), dayno);
    tmbuf.tm_mon := mon;
    tmbuf.tm_mday := dayno + 1;
    Clock(dayclock);
    assert timer == timer / SECS_DAY * SECS_DAY + dayclock;
  }

  lemma Clock(s: int)
    requires 0 <= s < SECS_DAY
    ensures s % 60 + s % 3600 / 60 * 60 + s / 3600 * 3600 == s
    ensures 0 <= s % 60 < 60 && 0 <= s % 3600 / 60 < 60 && 0 <= s / 3600 < 24
  {
  }

  const MONTH_TO_DAYS: seq<int> := [0, 31, 59, 90, 120, 151, 181, 212, 243, 273, 304, 334]
  const MONTH_TO_DAYS_LEAP: seq<int> := [0, 31, 60, 91, 121, 152, 182, 213, 244, 274, 305, 335]

  /** TimeGM: only for the years 1970 to 2099, -1 for others. The weekday and the day of the year are
      not looked at. */
  function TimeGM(f: Fields): int {
    if f.year < 70 || f.year > 199 then -1
    else
      var days := 365 * (f.year - 70) + (f.year - 1 - 68) / 4;
      if f.mon < 0 || f.mon >= 12 then -1
      else
        var days' := days + (if Leap(1900 + f.year) then MONTH_TO_DAYS_LEAP[f.mon] else MONTH_TO_DAYS[f.mon])
          + f.mday - 1;
        days' * 86400 + f.hour * 3600 + f.min * 60 + f.sec
  }

  lemma MonthTable(leap: bool, mon: int)
    requires 0 <= mon < 12
    ensures (if leap then MONTH_TO_DAYS_LEAP[mon] else MONTH_TO_DAYS[mon]) == MonthStart(leap, mon)
  {
    assert MonthStart(leap, 2) == if leap then 60 else 59;
    assert MonthStart(leap, 4) == MonthStart(leap, 2) + 61;
    assert MonthStart(leap, 6) == MonthStart(leap, 4) + 61;
    assert MonthStart(leap, 8) == MonthStart(leap, 6) + 62;
    assert MonthStart(leap, 10) == MonthStart(leap, 8) + 61;
  }

  /** TimeGM is the inverse on the years it covers, and refuses all other years. */
  lemma TimeGMInverts(f: Fields, t: int)
    requires TimeAt(f, t)
    ensures if 1970 <= f.year + YEAR0 <= 2099 then TimeGM(f) == t else TimeGM(f) == -1
  {
    MonthTable(Leap(f.year + YEAR0), f.mon);
  }

  /** The years TimeGM covers are these seconds. */
  lemma CoveredYears(f: Fields, t: int)
    requires TimeAt(f, t)
    ensures 1970 <= f.year + YEAR0 <= 2099 <==> 0 <= t < 4102444800
  {
    YdayInYear(f);
    var y := f.year + YEAR0;
    if y < 1970 { YearsAscend(y, 1970); }
    if y > 1970 { YearsAscend(1970, y); }
    if y < 2100 { YearsAscend(y, 2100); }
    if y > 2100 { YearsAscend(2100, y); }
  }
}
