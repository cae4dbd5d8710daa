/**
 The calendar arithmetic behind `AddDate(0, 1, 0)`, which the call quota and the subscription
 length are built on.  Days are counted from 1 January of year 1 of the proleptic Gregorian
 calendar; instants are microseconds (the resolution of TIMESTAMPTZ) from the same origin, in UTC.
 */
module Calendar {

  type Time = int

  const SECOND: Time := 1_000_000
  const HOUR: Time := 3600 * SECOND
  const DAY: Time := 24 * HOUR

  datatype Date = Date(year: int, month: int, day: int)

  predicate IsLeap(year: int) {
    year % 4 == 0 && (year % 100 != 0 || year % 400 == 0)
  }

  function DaysIn(year: int, month: int): int {
    if month == 2 then (if IsLeap(year) then 29 else 28)
    else if month in {4, 6, 9, 11} then 30
    else 31
  }

  predicate ValidDate(d: Date) {
    1 <= d.month <= 12 && 1 <= d.day <= DaysIn(d.year, d.month)
  }

  function DaysBeforeYear(year: int): int {
    365 * (year - 1) + (year - 1) / 4 - (year - 1) / 100 + (year - 1) / 400
  }

  function DaysBeforeMonth(year: int, month: int): int {
    var leap := if month > 2 && IsLeap(year) then 1 else 0;
    leap + if month <= 1 then 0
           else if month == 2 then 31
           else if month == 3 then 59
           else if month == 4 then 90
           else if month == 5 then 120
           else if month == 6 then 151
           else if month == 7 then 181
           else if month == 8 then 212
           else if month == 9 then 243
           else if month == 10 then 273
           else if month == 11 then 304
           else if month == 12 then 334
           else 365
  }

  function DayOfYear(d: Date): int {
    DaysBeforeMonth(d.year, d.month) + d.day - 1
  }

  // The day a year, month and day denote; the day may lie outside the month, and then overflows.
  function DayNumber(d: Date): int {
    DaysBeforeYear(d.year) + DayOfYear(d)
  }

  // A day count split into whole cycles of 400, 100, 4 and 1 years and the days left over.
  datatype Split = Split(n400: int, n100: int, n4: int, n1: int, rest: int)

  function SplitDays(n: int): (s: Split)
    ensures 0 <= s.n100 <= 3 && 0 <= s.n4 <= 24 && 0 <= s.n1 <= 3
    ensures 0 <= s.rest < 365 + if s.n1 == 3 && (s.n4 != 24 || s.n100 == 3) then 1 else 0
    ensures n == 146097 * s.n400 + 36524 * s.n100 + 1461 * s.n4 + 365 * s.n1 + s.rest
  {
    var n400, d400 := n / 146097, n % 146097;
    var q100 := d400 / 36524;
    var n100 := q100 - q100 / 4;
    var d100 := d400 - 36524 * n100;
    var n4, d4 := d100 / 1461, d100 % 1461;
    var q1 := d4 / 365;
    var n1 := q1 - q1 / 4;
    Split(n400, n100, n4, n1, d4 - 365 * n1)
  }

  function YearOf(s: Split): int {
    400 * s.n400 + 100 * s.n100 + 4 * s.n4 + s.n1 + 1
  }

  // Year and day within the year.
  function YearAndDay(n: int): (r: (int, int))
    ensures 0 <= r.1 < 365 + (if IsLeap(r.0) then 1 else 0)
    ensures DaysBeforeYear(r.0) + r.1 == n
  {
    var s := SplitDays(n);
    CycleSum(s.n400, s.n100, s.n4, s.n1);
    (YearOf(s), s.rest)
  }

  lemma CycleSum(a: int, b: int, c: int, e: int)
    requires 0 <= b <= 3 && 0 <= c <= 24 && 0 <= e <= 3
    ensures DaysBeforeYear(400 * a + 100 * b + 4 * c + e + 1) == 146097 * a + 36524 * b + 1461 * c + 365 * e
    ensures IsLeap(400 * a + 100 * b + 4 * c + e + 1) <==> e == 3 && (c != 24 || b == 3)
  {
    var y := 400 * a + 100 * b + 4 * c + e;
    Quotient(4, y, 100 * a + 25 * b + c, e);
    Quotient(100, y, 4 * a + b, 4 * c + e);
    Quotient(400, y, a, 100 * b + 4 * c + e);
    NextMultiple(4, y, e);
    NextMultiple(100, y, 4 * c + e);
    NextMultiple(400, y, 100 * b + 4 * c + e);
  }

  lemma Quotient(k: int, y: int, q: int, r: int)
    requires y == k * q + r && 0 <= r < k
    ensures y / k == q && y % k == r
  {
    SmallMultiple(k, y / k - q, r - y % k);
  }

  lemma SmallMultiple(k: int, x: int, p: int)
    requires k * x == p && -k < p < k
    ensures x == 0
  {
    if x != 0 {
      MultipleAtLeast(k, if x > 0 then x else -x);
    }
  }

  lemma MultipleAtLeast(k: int, x: int)
    requires 0 < k && 1 <= x
    ensures k <= k * x
  {
    assert k * x == k * (x - 1) + k;
  }

  lemma NextMultiple(k: int, y: int, r: int)
    requires 1 < k && 0 <= r < k && y % k == r
    ensures (y + 1) % k == 0 <==> r == k - 1
  {
    if r == k - 1 {
      assert y + 1 == k * (y / k) + k == k * (y / k + 1);
      Quotient(k, y + 1, y / k + 1, 0);
    } else {
      Quotient(k, y + 1, y / k, r + 1);
    }
  }

  function MonthOf(year: int, yday: int): int {
    if yday < DaysBeforeMonth(year, 2) then 1
    else if yday < DaysBeforeMonth(year, 3) then 2
    else if yday < DaysBeforeMonth(year, 4) then 3
    else if yday < DaysBeforeMonth(year, 5) then 4
    else if yday < DaysBeforeMonth(year, 6) then 5
    else if yday < DaysBeforeMonth(year, 7) then 6
    else if yday < DaysBeforeMonth(year, 8) then 7
    else if yday < DaysBeforeMonth(year, 9) then 8
    else if yday < DaysBeforeMonth(year, 10) then 9
    else if yday < DaysBeforeMonth(year, 11) then 10
    else if yday < DaysBeforeMonth(year, 12) then 11
    else 12
  }

  function DateOf(n: int): (d: Date)
    ensures ValidDate(d) && DayNumber(d) == n
  {
    var (year, yday) := YearAndDay(n);
    var month := MonthOf(year, yday);
    Date(year, month, yday - DaysBeforeMonth(year, month) + 1)
  }

  lemma Cycles(y: int) returns (a: int, b: int, c: int, e: int)
    ensures y == 400 * a + 100 * b + 4 * c + e
    ensures 0 <= b <= 3 && 0 <= c <= 24 && 0 <= e <= 3
  {
    a, b, c, e := y / 400, y % 400 / 100, y % 400 % 100 / 4, y % 400 % 100 % 4;
  }

  lemma YearLength(year: int)
    ensures DaysBeforeYear(year + 1) == DaysBeforeYear(year) + 365 + (if IsLeap(year) then 1 else 0)
  {
    var a, b, c, e := Cycles(year - 1);
    CycleSum(a, b, c, e);
    var days := 146097 * a + 36524 * b + 1461 * c + 365 * e;
    assert DaysBeforeYear(year + 1) == days + 365 + (if e == 3 && (c != 24 || b == 3) then 1 else 0) by {
      NextYear(a, b, c, e);
    }
  }

  lemma NextYear(a: int, b: int, c: int, e: int)
    requires 0 <= b <= 3 && 0 <= c <= 24 && 0 <= e <= 3
    ensures DaysBeforeYear(400 * a + 100 * b + 4 * c + e + 2)
         == 146097 * a + 36524 * b + 1461 * c + 365 * e + 365 + (if e == 3 && (c != 24 || b == 3) then 1 else 0)
  {
    if e < 3 {
      CycleSum(a, b, c, e + 1);
    } else if c < 24 {
      CycleSum(a, b, c + 1, 0);
    } else if b < 3 {
      CycleSum(a, b + 1, 0, 0);
    } else {
      CycleSum(a + 1, 0, 0, 0);
    }
  }

  lemma {:induction false} YearsApart(lo: int, hi: int)
    requires lo <= hi
    ensures DaysBeforeYear(lo) + 365 * (hi - lo) <= DaysBeforeYear(hi)
    decreases hi - lo
  {
    if lo < hi {
      YearLength(hi - 1);
      YearsApart(lo, hi - 1);
    }
  }

  lemma MonthLength(year: int, month: int)
    requires 1 <= month <= 12
    ensures DaysBeforeMonth(year, month + 1) == DaysBeforeMonth(year, month) + DaysIn(year, month)
    ensures DaysIn(year, month) >= 28
  {
  }

  lemma {:induction false} MonthsApart(year: int, lo: int, hi: int)
    requires 1 <= lo <= hi <= 13
    ensures DaysBeforeMonth(year, lo) <= DaysBeforeMonth(year, hi)
    decreases hi - lo
  {
    if lo < hi {
      MonthLength(year, hi - 1);
      MonthsApart(year, lo, hi - 1);
    }
  }

  lemma EarlierMonth(d: Date, e: Date)
    requires ValidDate(d) && ValidDate(e) && d.year == e.year && d.month < e.month
    ensures DayOfYear(d) < DayOfYear(e)
  {
    MonthLength(d.year, d.month);
    MonthsApart(d.year, d.month + 1, e.month);
  }

  lemma EarlierYear(d: Date, e: Date)
    requires ValidDate(d) && ValidDate(e) && d.year < e.year
    ensures DayNumber(d) < DayNumber(e)
  {
    MonthLength(d.year, d.month);
    MonthsApart(d.year, d.month + 1, 13);
    MonthsApart(e.year, 1, e.month);
    assert DayOfYear(d) < 365 + (if IsLeap(d.year) then 1 else 0) && 0 <= DayOfYear(e);
    YearLength(d.year);
    YearsApart(d.year + 1, e.year);
  }

  // The lengths of the months, and two known days: 1 January 1970 and 29 February 2000.
  lemma KnownDays()
    ensures forall year, month :: 1 <= month <= 12 ==>
              DaysIn(year, month) == if month == 2 && IsLeap(year) then 29
                                     else [31, 28, 31, 30, 31, 30, 31, 31, 30, 31, 30, 31][month - 1]
    ensures IsLeap(2000) && !IsLeap(1900) && IsLeap(2024) && !IsLeap(2023)
    ensures DayNumber(Date(1, 1, 1)) == 0 && DayNumber(Date(1970, 1, 1)) == 719_162
    ensures DayNumber(Date(2000, 2, 29)) == DayNumber(Date(1970, 1, 1)) + 11_016
  {
  }

  // A month from the last day of January comes to the beginning of March.
  lemma AfterJanuary(time: int)
    requires 0 <= time < 86_400_000_000
    ensures AddMonth(DayNumber(Date(2023, 1, 31)) * 86_400_000_000 + time)
         == DayNumber(Date(2023, 3, 3)) * 86_400_000_000 + time
    ensures AddMonth(DayNumber(Date(2024, 1, 31)) * 86_400_000_000 + time)
         == DayNumber(Date(2024, 3, 2)) * 86_400_000_000 + time
  {
    DateOfDayNumber(Date(2023, 1, 31));
    DateOfDayNumber(Date(2024, 1, 31));
    DayAndTime(DayNumber(Date(2023, 1, 31)), time);
    DayAndTime(DayNumber(Date(2024, 1, 31)), time);
  }

  // A day number denotes one date only, so DateOf is the inverse of DayNumber on valid dates.
  lemma DateOfDayNumber(d: Date)
    requires ValidDate(d)
    ensures DateOf(DayNumber(d)) == d
  {
    DatesEqual(DateOf(DayNumber(d)), d);
  }

  lemma DatesEqual(d: Date, e: Date)
    requires ValidDate(d) && ValidDate(e) && DayNumber(d) == DayNumber(e)
    ensures d == e
  {
    if d.year < e.year {
      EarlierYear(d, e);
    } else if e.year < d.year {
      EarlierYear(e, d);
    } else if d.month < e.month {
      EarlierMonth(d, e);
    } else if e.month < d.month {
      EarlierMonth(e, d);
    }
  }

  // The same day of the next month, which may overflow that month.
  function NextMonth(d: Date): Date {
    if d.month == 12 then Date(d.year + 1, 1, d.day) else Date(d.year, d.month + 1, d.day)
  }

  lemma NextMonthAdvance(d: Date)
    requires ValidDate(d)
    ensures DayNumber(NextMonth(d)) == DayNumber(d) + DaysIn(d.year, d.month)
  {
    MonthLength(d.year, d.month);
    if d.month == 12 {
      YearLength(d.year);
    }
  }

  // AddDate(0, 1, 0): the month number goes up by one, the day stays, and a day past the end of
  // the new month overflows into the month after it.
  function AddMonth(t: Time): Time {
    Instant(DayNumber(NextMonth(DateOf(t / DAY))), t % DAY)
  }

  function Instant(day: int, time: Time): Time {
    day * DAY + time
  }

  lemma LaterDay(t: Time, days: int)
    ensures Instant(t / DAY + days, t % DAY) == t + days * DAY
  {
  }

  // Adding a month moves forward by exactly the length of the month the instant lies in.
  lemma AddMonthAdvance(t: Time)
    ensures var d := DateOf(t / DAY); AddMonth(t) == t + DaysIn(d.year, d.month) * DAY
  {
    var d := DateOf(t / DAY);
    NextMonthAdvance(d);
    LaterDay(t, DaysIn(d.year, d.month));
  }

  lemma AddMonthBounds(t: Time)
    ensures t + 28 * DAY <= AddMonth(t) <= t + 31 * DAY
  {
    var days := DaysIn(DateOf(t / DAY).year, DateOf(t / DAY).month);
    AddMonthAdvance(t);
    assert 28 <= days <= 31;
  }

  // The calendar date a possibly overflowing next month comes to.
  function Settled(next: Date): Date {
    if ValidDate(next) then next else Date(next.year, next.month + 1, next.day - DaysIn(next.year, next.month))
  }

  lemma SettledDate(d: Date)
    requires ValidDate(d)
    ensures DateOf(DayNumber(NextMonth(d))) == Settled(NextMonth(d))
  {
    var next := NextMonth(d);
    SettledValid(d);
    DateOfDayNumber(Settled(next));
  }

  lemma SettledValid(d: Date)
    requires ValidDate(d)
    ensures ValidDate(Settled(NextMonth(d)))
    ensures DayNumber(Settled(NextMonth(d))) == DayNumber(NextMonth(d))
  {
    var next := NextMonth(d);
    MonthLength(next.year, next.month);
    if !ValidDate(next) {
      MonthLength(next.year, next.month + 1);
    }
    assert DayOfYear(Settled(next)) == DayOfYear(next) && Settled(next).year == next.year;
  }

  // The day of the month survives exactly when the next month is long enough for it, and the time
  // of day always does.
  lemma AddMonthDay(t: Time)
    ensures DateOf(AddMonth(t) / DAY) == Settled(NextMonth(DateOf(t / DAY)))
    ensures AddMonth(t) % DAY == t % DAY
  {
    var n := DayNumber(NextMonth(DateOf(t / DAY)));
    DayAndTime(n, t % DAY);
    SettledDate(DateOf(t / DAY));
  }

  lemma DayAndTime(n: int, time: int)
    requires 0 <= time < DAY
    ensures Instant(n, time) / DAY == n && Instant(n, time) % DAY == time
  {
  }
}
