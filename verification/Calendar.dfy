/**
 gmtime_r and mktime of kernel/core/libc.c. Years are unbounded here; in the original the year must
 fit in an int.
 */
module Calendar {

  /** libc_is_leap_year. */
  predicate IsLeap(year: int)
  {
    (year % 4 == 0 && year % 100 != 0) || year % 400 == 0
  }

  function YearLength(year: int): int
  {
    if IsLeap(year) then 366 else 365
  }

  /** libc_days_in_month; months outside the year count 30. */
  function DaysInMonth(year: int, month: int): int
  {
    if month == 1 && IsLeap(year) then 29
    else if month < 0 || month >= 12 then 30
    else if month == 1 then 28
    else if month == 3 || month == 5 || month == 8 || month == 10 then 30
    else 31
  }

  // ---- Reference: the proleptic Gregorian calendar in closed form ----------------------------------------------

  /** Leap years up to and including year, counted from an arbitrary origin. */
  function Leaps(year: int): int
  {
    year / 4 - year / 100 + year / 400
  }

  /** Days from 1 January 1970 to 1 January of year. */
  function Days(year: int): int
  {
    365 * (year - 1970) + Leaps(year - 1) - Leaps(1969)
  }

  lemma NextYear(year: int)
    ensures Days(year + 1) == Days(year) + YearLength(year)
  {
    Quotient(year, 4);
    Quotient(year, 100);
    Quotient(year, 400);
    Nested(year);
  }

  lemma Nested(year: int)
    ensures year % 400 == 0 ==> year % 100 == 0
    ensures year % 100 == 0 ==> year % 4 == 0
  {
    if year % 400 == 0 { Division(year, 100, 4 * (year / 400), 0); }
    if year % 100 == 0 { Division(year, 4, 25 * (year / 100), 0); }
  }

  lemma Quotient(y: int, k: int)
    requires k == 4 || k == 100 || k == 400
    ensures y / k - (y - 1) / k == if y % k == 0 then 1 else 0
  {
  }

  lemma {:induction false} LaterYears(y: int, z: int)
    requires y < z
    ensures Days(y) + YearLength(y) <= Days(z)
    decreases z - y
  {
    NextYear(y);
    if y + 1 < z { LaterYears(y + 1, z); }
  }

  function DaysBeforeMonth(year: int, month: int): int
    decreases month
  {
    if month <= 0 then 0 else DaysBeforeMonth(year, month - 1) + DaysInMonth(year, month - 1)
  }

  /** The days before each month, and that the months make up the year. */
  lemma MonthTable(year: int)
    ensures var f := if IsLeap(year) then 1 else 0;
            && DaysBeforeMonth(year, 1) == 31 && DaysBeforeMonth(year, 2) == 59 + f
            && DaysBeforeMonth(year, 3) == 90 + f
            && DaysBeforeMonth(year, 4) == 120 + f && DaysBeforeMonth(year, 5) == 151 + f
            && DaysBeforeMonth(year, 6) == 181 + f && DaysBeforeMonth(year, 7) == 212 + f
            && DaysBeforeMonth(year, 8) == 243 + f && DaysBeforeMonth(year, 9) == 273 + f
            && DaysBeforeMonth(year, 10) == 304 + f && DaysBeforeMonth(year, 11) == 334 + f
            && DaysBeforeMonth(year, 12) == YearLength(year)
  {
    assert DaysBeforeMonth(year, 0) == 0;
  }

  lemma {:induction false} LaterMonths(year: int, m: int, n: int)
    requires 0 <= m < n
    ensures DaysBeforeMonth(year, m) + DaysInMonth(year, m) <= DaysBeforeMonth(year, n)
    decreases n
  {
    if m + 1 < n { LaterMonths(year, m, n - 1); }
  }

  // ---- Broken-down time -------------------------------------------------------------------------------------------

  /** struct tm without the weekday. */
  datatype Tm = Tm(year: int, mon: int, mday: int, hour: int, min: int, sec: int, yday: int)

  predicate InRange(tm: Tm)
  {
    && 0 <= tm.mon < 12 && 1 <= tm.mday <= DaysInMonth(tm.year + 1900, tm.mon)
    && 0 <= tm.hour < 24 && 0 <= tm.min < 60 && 0 <= tm.sec < 60
    && tm.yday == DaysBeforeMonth(tm.year + 1900, tm.mon) + tm.mday - 1
  }

  function DayNumber(tm: Tm): int
  {
    Days(tm.year + 1900) + DaysBeforeMonth(tm.year + 1900, tm.mon) + tm.mday - 1
  }

  function SecondOfDay(tm: Tm): int
  {
    tm.hour * 3600 + tm.min * 60 + tm.sec
  }

  /** Seconds since the epoch. */
  function Epoch(tm: Tm): int
  {
    DayNumber(tm) * 86400 + SecondOfDay(tm)
  }

  /** A time has only one representation in calendar range. */
  lemma Unique(a: Tm, b: Tm)
    requires InRange(a) && InRange(b) && Epoch(a) == Epoch(b)
    ensures a == b
  {
    hide Days, DaysBeforeMonth, DaysInMonth, YearLength;
    SecondsInDay(a);
    SecondsInDay(b);
    SameDay(DayNumber(a), SecondOfDay(a), DayNumber(b), SecondOfDay(b));
    SameSecond(a, b);
    InYear(a);
    InYear(b);
    if a.year < b.year { LaterYears(a.year + 1900, b.year + 1900); }
    if b.year < a.year { LaterYears(b.year + 1900, a.year + 1900); }
    if a.mon < b.mon { LaterMonths(a.year + 1900, a.mon, b.mon); }
    if b.mon < a.mon { LaterMonths(a.year + 1900, b.mon, a.mon); }
  }

  lemma SecondsInDay(tm: Tm)
    requires InRange(tm)
    ensures 0 <= SecondOfDay(tm) < 86400
  {
  }

  lemma SameDay(d: int, s: int, e: int, r: int)
    requires 0 <= s < 86400 && 0 <= r < 86400 && d * 86400 + s == e * 86400 + r
    ensures d == e && s == r
  {
  }

  lemma SameSecond(a: Tm, b: Tm)
    requires InRange(a) && InRange(b) && SecondOfDay(a) == SecondOfDay(b)
    ensures a.hour == b.hour && a.min == b.min && a.sec == b.sec
  {
    assert SecondOfDay(a) == 60 * (a.hour * 60 + a.min) + a.sec;
    assert SecondOfDay(b) == 60 * (b.hour * 60 + b.min) + b.sec;
    assert a.hour * 60 + a.min == b.hour * 60 + b.min;
  }

  lemma InYear(tm: Tm)
    requires InRange(tm)
    ensures 0 <= tm.yday < YearLength(tm.year + 1900) && DayNumber(tm) == Days(tm.year + 1900) + tm.yday
  {
    MonthTable(tm.year + 1900);
    if tm.mon < 11 { LaterMonths(tm.year + 1900, tm.mon, 12); }
    BeforeMonth(tm.year + 1900, tm.mon);
  }

  lemma {:induction false} BeforeMonth(year: int, month: int)
    ensures DaysBeforeMonth(year, month) >= 0
    decreases month
  {
    if month > 0 { BeforeMonth(year, month - 1); }
  }

  // ---- The code ---------------------------------------------------------------------------------------------------

  /** Division of C, which truncates toward zero. */
  function Quot(a: int, b: int): int
    requires b > 0
  {
    if a >= 0 then a / b else -(-a / b)
  }

  function Rem(a: int, b: int): int
    requires b > 0
  {
    a - Quot(a, b) * b
  }

  /** libc_days_before_year. */
  method DaysBeforeYear(year: int) returns (days: int)
    ensures days == Days(year)
  {
    days := 0;
    if year >= 1970 {
      var y := 1970;
      while y < year
        invariant 1970 <= y <= year && days == Days(y)
      {
        NextYear(y);
        days := days + if IsLeap(y) then 366 else 365;
        y := y + 1;
      }
    } else {
      var y := year;
      while y < 1970
        invariant year <= y <= 1970 && days == Days(year) - Days(y)
      {
        NextYear(y);
        days := days - if IsLeap(y) then 366 else 365;
        y := y + 1;
      }
      assert Days(1970) == 0;
    }
  }

  /** The search of gmtime_r for the year that contains a day. */
  method FindYear(day: int) returns (year: int, yday: int)
    ensures 0 <= yday < YearLength(year) && Days(year) + yday == day
  {
    year, yday := 1970, day;
    while yday >= (if IsLeap(year) then 366 else 365)
      invariant Days(year) + yday == day && year >= 1970 && (day < 0 ==> yday == day && year == 1970)
      decreases yday
    {
      NextYear(year);
      yday := yday - if IsLeap(year) then 366 else 365;
      year := year + 1;
    }
    while yday < 0
      invariant Days(year) + yday == day && yday < YearLength(year)
      decreases -yday
    {
      year := year - 1;
      NextYear(year);
      yday := yday + if IsLeap(year) then 366 else 365;
    }
  }

  /** The search of gmtime_r for the month; it never passes December. */
  method FindMonth(year: int, yday: int) returns (mon: int, mday: int)
    requires 0 <= yday < YearLength(year)
    ensures 0 <= mon < 12 && 1 <= mday <= DaysInMonth(year, mon) && DaysBeforeMonth(year, mon) + mday - 1 == yday
  {
    var days := yday;
    mon := 0;
    MonthTable(year);
    while days >= DaysInMonth(year, mon)
      invariant 0 <= mon < 12 && days >= 0 && DaysBeforeMonth(year, mon) + days == yday
      decreases days
    {
      days := days - DaysInMonth(year, mon);
      mon := mon + 1;
    }
    mday := days + 1;
  }

  /** gmtime_r: the one representation in calendar range that mktime maps back to t. */
  method GmTime(t: int) returns (tm: Tm)
    ensures InRange(tm) && Epoch(tm) == t
    ensures forall other :: InRange(other) && Epoch(other) == t ==> other == tm
  {
    var days, second := Quot(t, 86400), Rem(t, 86400);
    if second < 0 {
      second := second + 86400;
      days := days - 1;
    }
    assert 0 <= second < 86400 && days * 86400 + second == t;
    var year, yday := FindYear(days);
    var mon, mday := FindMonth(year, yday);
    tm := Tm(year - 1900, mon, mday, second / 3600, second / 60 % 60, second % 60, yday);
    SplitSecond(second);
    forall other | InRange(other) && Epoch(other) == t ensures other == tm { Unique(other, tm); }
  }

  lemma SplitSecond(second: int)
    requires 0 <= second < 86400
    ensures second / 3600 * 3600 + second / 60 % 60 * 60 + second % 60 == second && second / 3600 < 24
  {
    var m := second / 60;
    assert second / 3600 == m / 60;
  }

  /** mktime. */
  method MkTime(tm: Tm) returns (t: int)
    ensures t == Epoch(tm)
  {
    var year := tm.year + 1900;
    var days := DaysBeforeYear(year);
    var month := 0;
    while month < tm.mon
      invariant 0 <= month && (month <= tm.mon || tm.mon < 0)
      invariant days == Days(year) + DaysBeforeMonth(year, month) && (tm.mon <= 0 ==> month == 0)
    {
      days := days + DaysInMonth(year, month);
      month := month + 1;
    }
    days := days + tm.mday - 1;
    t := days * 86400 + tm.hour * 3600 + tm.min * 60 + tm.sec;
  }

  /** mktime undoes gmtime_r for every time, before and after 1970. */
  method RoundTrip(t: int) returns (back: int)
    ensures back == t
  {
    var tm := GmTime(t);
    back := MkTime(tm);
  }

  /** gmtime_r undoes mktime for every broken-down time in calendar range. */
  method RoundTripBack(tm: Tm) returns (back: Tm)
    requires InRange(tm)
    ensures back == tm
  {
    var t := MkTime(tm);
    back := GmTime(t);
  }

  /** tm_wday as gmtime_r computes it. */
  function Weekday(t: int): int
  {
    var w := Rem(4 + Quot(t, 86400), 7);
    if w < 0 then w + 7 else w
  }

  /** The weekday of the day that contains t; day 0 was a Thursday. */
  function TrueWeekday(t: int): int
  {
    (4 + t / 86400) % 7
  }

  /** The last second of 1969 was on a Wednesday, not on a Thursday. */
  lemma WeekdayWrong()
    ensures TrueWeekday(-1) == 3 && Weekday(-1) == 4
  {
  }

  /** The computed weekday is right if and only if t is not inside a day before 1970. */
  lemma WeekdayExact(t: int)
    ensures Weekday(t) == TrueWeekday(t) <==> t >= 0 || t % 86400 == 0
  {
    var day := t / 86400;
    QuotFloor(t, 86400);
    WrapSeven(4 + Quot(t, 86400));
  }

  lemma QuotFloor(a: int, b: int)
    requires b > 0
    ensures Quot(a, b) == if a >= 0 || a % b == 0 then a / b else a / b + 1
  {
    if a < 0 {
      var q, r := -a / b, -a % b;
      assert a == b * -q - r;
      if r == 0 { Division(a, b, -q, 0); } else { Division(a, b, -q - 1, b - r); }
    }
  }

  lemma Division(a: int, b: int, q: int, r: int)
    requires b > 0 && a == b * q + r && 0 <= r < b
    ensures a / b == q && a % b == r
  {
    var q', r' := a / b, a % b;
    Product(b, q, q');
    assert b * (q - q') == r' - r;
    if q > q' { AtLeast(b, q - q'); } else if q < q' { AtLeast(b, q' - q); }
  }

  lemma Product(b: int, q: int, p: int)
    ensures b * q - b * p == b * (q - p) && b * (q - p) == 0 - b * (p - q)
  {
  }

  lemma AtLeast(b: int, d: int)
    requires b > 0 && d >= 1
    ensures b * d >= b
  {
    assert b * d == b + b * (d - 1);
  }

  lemma WrapSeven(x: int)
    ensures (if Rem(x, 7) < 0 then Rem(x, 7) + 7 else Rem(x, 7)) == x % 7
  {
  }
}
