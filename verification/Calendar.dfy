/**
 Calendar dates and times of day as the JavaScript `Date` functions count them:
 dates that overflow are carried, and two-digit years mean the twentieth century.
 Times are whole seconds since 1970-01-01T00:00:00.
 */
module Calendar {
  datatype Parts = Parts(year: int, month: int, day: int, hour: int, minute: int, second: int)

  const DAY: int := 86400

  predicate Leap(y: int) { y % 4 == 0 && (y % 100 != 0 || y % 400 == 0) }

  function YearLength(y: int): int { if Leap(y) then 366 else 365 }

  /** The days from the start of 1970 to the start of year `y`. */
  function DaysBeforeYear(y: int): int
    decreases if y > 1970 then y - 1970 else 1970 - y
  {
    if y == 1970 then 0
    else if y > 1970 then DaysBeforeYear(y - 1) + YearLength(y - 1)
    else DaysBeforeYear(y + 1) - YearLength(y)
  }

  lemma NextYear(y: int)
    ensures DaysBeforeYear(y + 1) == DaysBeforeYear(y) + YearLength(y)
  {
  }

  lemma {:induction false} YearsInOrder(y: int, z: int)
    requires y <= z
    ensures DaysBeforeYear(y) + 365 * (z - y) <= DaysBeforeYear(z)
    decreases z - y
  {
    if y < z {
      YearsInOrder(y, z - 1);
      NextYear(z - 1);
    }
  }

  function DaysBeforeMonth(leap: bool, m: int): int
    requires 1 <= m <= 13
  {
    var leapDay := if leap && m > 2 then 1 else 0;
    leapDay + [0, 31, 59, 90, 120, 151, 181, 212, 243, 273, 304, 334, 365][m - 1]
  }

  function MonthLength(leap: bool, m: int): int
    requires 1 <= m <= 12
  {
    DaysBeforeMonth(leap, m + 1) - DaysBeforeMonth(leap, m)
  }

  predicate IsDate(y: int, m: int, d: int) {
    1 <= m <= 12 && 1 <= d <= MonthLength(Leap(y), m)
  }

  predicate IsClock(p: Parts) {
    0 <= p.hour < 24 && 0 <= p.minute < 60 && 0 <= p.second < 60
  }

  predicate IsParts(p: Parts) { IsDate(p.year, p.month, p.day) && IsClock(p) }

  /** The day number of a date whose month and day may overflow. */
  function MakeDay(y: int, m: int, d: int): int {
    var year := y + (m - 1) / 12;
    DaysBeforeYear(year) + DaysBeforeMonth(Leap(year), (m - 1) % 12 + 1) + d - 1
  }

  lemma PlainDay(y: int, m: int, d: int)
    requires 1 <= m <= 12
    ensures MakeDay(y, m, d) == DaysBeforeYear(y) + DaysBeforeMonth(Leap(y), m) + d - 1
  {
    assert (m - 1) / 12 == 0 && (m - 1) % 12 == m - 1;
  }

  function MakeTime(p: Parts): int {
    MakeDay(p.year, p.month, p.day) * DAY + p.hour * 3600 + p.minute * 60 + p.second
  }

  /** `Date.UTC`, in seconds. */
  function DateUtc(p: Parts): int {
    MakeTime(if 0 <= p.year <= 99 then p.(year := 1900 + p.year) else p)
  }

  // ---- and back ----

  /** The year of a day, looked for from year `y`. */
  function YearFrom(day: int, y: int): (year: int)
    ensures DaysBeforeYear(year) <= day < DaysBeforeYear(year + 1)
    decreases if DaysBeforeYear(y) <= day then day - DaysBeforeYear(y) else 366 + DaysBeforeYear(y) - day
  {
    NextYear(y);
    NextYear(y - 1);
    if day < DaysBeforeYear(y) then YearFrom(day, y - 1)
    else if DaysBeforeYear(y + 1) <= day then YearFrom(day, y + 1)
    else y
  }

  function MonthOf(leap: bool, dayOfYear: int, m: int): (month: int)
    requires 1 <= m <= 12 && 0 <= dayOfYear < DaysBeforeMonth(leap, m + 1)
    ensures 1 <= month <= m
    ensures DaysBeforeMonth(leap, month) <= dayOfYear < DaysBeforeMonth(leap, month + 1)
    decreases m
  {
    if DaysBeforeMonth(leap, m) <= dayOfYear then m else MonthOf(leap, dayOfYear, m - 1)
  }

  /** The date with a given day number. */
  function DateOf(day: int): (date: (int, int, int))
    ensures IsDate(date.0, date.1, date.2) && MakeDay(date.0, date.1, date.2) == day
  {
    var y := YearFrom(day, 1970);
    NextYear(y);
    var m := MonthOf(Leap(y), day - DaysBeforeYear(y), 12);
    var d := day - DaysBeforeYear(y) - DaysBeforeMonth(Leap(y), m) + 1;
    PlainDay(y, m, d);
    (y, m, d)
  }

  lemma ClockParts(t: int)
    ensures t == t / DAY * DAY + t % DAY / 3600 * 3600 + t % DAY % 3600 / 60 * 60 + t % DAY % 60
    ensures 0 <= t % DAY / 3600 < 24 && 0 <= t % DAY % 3600 / 60 < 60
  {
    var s := t % DAY;
    var u := s % 3600;
    assert s == s / 3600 * 3600 + u && u == u / 60 * 60 + u % 60;
    assert s == 60 * (s / 3600 * 60 + u / 60) + u % 60;
  }

  /** The date and time of day of a moment, as the `getUTC…` functions give them. */
  function PartsOf(t: int): (p: Parts)
    ensures IsParts(p) && MakeTime(p) == t
  {
    var date := DateOf(t / DAY);
    ClockParts(t);
    var s := t % DAY;
    Parts(date.0, date.1, date.2, s / 3600, s % 3600 / 60, s % 60)
  }

  lemma MonthsInOrder(leap: bool, m: int, n: int)
    requires 1 <= m < n <= 13
    ensures DaysBeforeMonth(leap, m + 1) <= DaysBeforeMonth(leap, n)
  {
  }

  lemma DayInYear(p: Parts)
    requires IsDate(p.year, p.month, p.day)
    ensures DaysBeforeYear(p.year) <= MakeDay(p.year, p.month, p.day) < DaysBeforeYear(p.year + 1)
  {
    NextYear(p.year);
    PlainDay(p.year, p.month, p.day);
  }

  lemma MonthsAreDistinct(leap: bool, m: int, d: int, n: int, e: int)
    requires 1 <= m <= 12 && 1 <= d <= MonthLength(leap, m) && 1 <= n <= 12 && 1 <= e <= MonthLength(leap, n)
    requires DaysBeforeMonth(leap, m) + d == DaysBeforeMonth(leap, n) + e
    ensures m == n && d == e
  {
    if m < n { MonthsInOrder(leap, m, n); }
    if n < m { MonthsInOrder(leap, n, m); }
  }

  lemma YearsAreDistinct(y: int, z: int, n: int)
    requires DaysBeforeYear(y) <= n < DaysBeforeYear(y + 1) && DaysBeforeYear(z) <= n < DaysBeforeYear(z + 1)
    ensures y == z
  {
    if y < z { YearsInOrder(y + 1, z); }
    if z < y { YearsInOrder(z + 1, y); }
  }

  lemma DaysAreDistinct(p: Parts, q: Parts)
    requires IsDate(p.year, p.month, p.day) && IsDate(q.year, q.month, q.day)
    requires MakeDay(p.year, p.month, p.day) == MakeDay(q.year, q.month, q.day)
    ensures p.year == q.year && p.month == q.month && p.day == q.day
  {
    DayInYear(p);
    DayInYear(q);
    YearsAreDistinct(p.year, q.year, MakeDay(p.year, p.month, p.day));
    PlainDay(p.year, p.month, p.day);
    PlainDay(q.year, q.month, q.day);
    MonthsAreDistinct(Leap(p.year), p.month, p.day, q.month, q.day);
  }

  lemma ClocksAreDistinct(a: int, b: int, p: Parts, q: Parts)
    requires IsClock(p) && IsClock(q)
    requires a * DAY + p.hour * 3600 + p.minute * 60 + p.second == b * DAY + q.hour * 3600 + q.minute * 60 + q.second
    ensures a == b && p.hour == q.hour && p.minute == q.minute && p.second == q.second
  {
  }

  lemma ClockBelowDay(p: Parts)
    requires IsClock(p)
    ensures MakeDay(p.year, p.month, p.day) * DAY <= MakeTime(p) < MakeDay(p.year, p.month, p.day) * DAY + DAY
  {
    var s := p.hour * 3600 + p.minute * 60 + p.second;
    assert 0 <= s < DAY;
  }

  /** No two dates with times of day are the same moment. */
  lemma MomentsAreDistinct(p: Parts, q: Parts)
    requires IsParts(p) && IsParts(q) && MakeTime(p) == MakeTime(q)
    ensures p == q
  {
    ClocksAreDistinct(MakeDay(p.year, p.month, p.day), MakeDay(q.year, q.month, q.day), p, q);
    DaysAreDistinct(p, q);
  }

  /** Making a moment and reading it back are inverse, exactly on the dates there are. */
  lemma ReadsBackExactly(p: Parts)
    requires IsClock(p)
    ensures PartsOf(MakeTime(p)) == p <==> IsDate(p.year, p.month, p.day)
  {
    if IsDate(p.year, p.month, p.day) {
      MomentsAreDistinct(p, PartsOf(MakeTime(p)));
    }
  }

  // ---- the calendar in numbers ----

  /** The day on which a year starts, counted from 1970: a leap day every fourth year, but not for centuries that 400 does not divide. */
  lemma {:induction false} YearStartsInNumbers(y: int)
    ensures DaysBeforeYear(y) == 365 * (y - 1970) + (y - 1969) / 4 - (y - 1901) / 100 + (y - 1601) / 400
    decreases if y > 1970 then y - 1970 else 1970 - y
  {
    if y > 1970 {
      YearStartsInNumbers(y - 1);
      LeapDayInNumbers(y - 1);
    } else if y < 1970 {
      YearStartsInNumbers(y + 1);
      LeapDayInNumbers(y);
    }
  }

  lemma EveryFourth(y: int)
    ensures (y - 1968) / 4 - (y - 1969) / 4 == if y % 4 == 0 then 1 else 0
  {
  }

  lemma EveryCentury(y: int)
    ensures (y - 1900) / 100 - (y - 1901) / 100 == if y % 100 == 0 then 1 else 0
    ensures y % 100 == 0 ==> y % 4 == 0
  {
  }

  lemma EveryFourthCentury(y: int)
    ensures (y - 1600) / 400 - (y - 1601) / 400 == if y % 400 == 0 then 1 else 0
    ensures y % 400 == 0 ==> y % 100 == 0
  {
  }

  lemma LeapDayInNumbers(y: int)
    ensures YearLength(y) == 365 + ((y - 1968) / 4 - (y - 1969) / 4) - ((y - 1900) / 100 - (y - 1901) / 100)
                                 + ((y - 1600) / 400 - (y - 1601) / 400)
  {
    EveryFourth(y);
    EveryCentury(y);
    EveryFourthCentury(y);
  }

  lemma MonthLengthsInTable(leap: bool, m: int)
    requires 1 <= m <= 12
    ensures MonthLength(leap, m) == if m == 2 then (if leap then 29 else 28) else if m == 4 || m == 6 || m == 9 || m == 11 then 30 else 31
  {
  }

  /** The months have the lengths they have. */
  lemma MonthLengths(y: int, m: int)
    requires 1 <= m <= 12
    ensures var leap := y % 400 == 0 || (y % 4 == 0 && y % 100 != 0);
            MonthLength(Leap(y), m) == if m == 2 then (if leap then 29 else 28) else if m == 4 || m == 6 || m == 9 || m == 11 then 30 else 31
  {
    EveryCentury(y);
    EveryFourthCentury(y);
    MonthLengthsInTable(Leap(y), m);
  }

  /** The next calendar day is the next day number, across the ends of months and years. */
  lemma DaysFollow(y: int, m: int, d: int)
    requires IsDate(y, m, d)
    ensures MakeDay(1970, 1, 1) == 0
    ensures MakeDay(y, m, d) + 1
            == if d < MonthLength(Leap(y), m) then MakeDay(y, m, d + 1) else if m < 12 then MakeDay(y, m + 1, 1) else MakeDay(y + 1, 1, 1)
  {
    PlainDay(y, m, d);
    PlainDay(1970, 1, 1);
    PlainDay(y + 1, 1, 1);
    NextYear(y);
    if m < 12 {
      PlainDay(y, m + 1, 1);
    }
  }

  /** A moment counts the seconds of its day after those of the days before. */
  lemma MomentsInNumbers(p: Parts)
    requires IsParts(p)
    ensures MakeTime(p) == 86400 * MakeDay(p.year, p.month, p.day) + 3600 * p.hour + 60 * p.minute + p.second
    ensures DateUtc(p) == if 0 <= p.year <= 99 then MakeTime(Parts(p.year + 1900, p.month, p.day, p.hour, p.minute, p.second)) else MakeTime(p)
  {
  }
}
