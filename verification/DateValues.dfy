/**
 Date and time-of-day texts: how the form fields are written from an instant, how they
 are read, and that the two agree.
 */
module DateValues {
  import opened Results
  import opened Calendar
  import opened WallClock

  function Digit(n: nat): char
    requires n < 10
  {
    '0' + n as char
  }

  function Decimal(n: nat): string {
    if n < 10 then [Digit(n)] else Decimal(n / 10) + [Digit(n % 10)]
  }

  function Pad(n: nat): string { if n < 10 then "0" + Decimal(n) else Decimal(n) }

  function DateText(y: nat, m: nat, d: nat): string { Decimal(y) + "-" + Pad(m) + "-" + Pad(d) }

  function TimeText(h: nat, m: nat): string { Pad(h) + ":" + Pad(m) }

  function DateValueInTimeZone(off: Offsets, u: int): string {
    var p := Shown(off, u);
    DateText(p.year, p.month, p.day)
  }

  function TimeValueInTimeZone(off: Offsets, u: int): string {
    var p := Shown(off, u);
    TimeText(p.hour, p.minute)
  }

  predicate DigitsBut(s: string, separators: set<int>) {
    forall i :: 0 <= i < |s| && i !in separators ==> '0' <= s[i] <= '9'
  }

  function Value(c: char): int { c as int - '0' as int }

  function Two(s: string, i: nat): int
    requires i + 2 <= |s|
  {
    10 * Value(s[i]) + Value(s[i + 1])
  }

  function ParseDate(s: string): Option<(int, int, int)> {
    if |s| == 10 && s[4] == '-' && s[7] == '-' && DigitsBut(s, {4, 7})
    then Some((100 * Two(s, 0) + Two(s, 2), Two(s, 5), Two(s, 8)))
    else None
  }

  function ParseTime(s: string): Option<(int, int)> {
    if |s| == 5 && s[2] == ':' && DigitsBut(s, {2}) && Two(s, 0) <= 23 && Two(s, 3) <= 59
    then Some((Two(s, 0), Two(s, 3)))
    else None
  }

  datatype Reply = BadDate | BadTime | Solved(outcome: Outcome)

  function Target(date: (int, int, int), time: (int, int)): Parts {
    Parts(date.0, date.1, date.2, time.0, time.1, 0)
  }

  function LocalDateTimeToIso(off: Offsets, dateValue: string, timeValue: string): Reply {
    match (ParseDate(dateValue), ParseTime(timeValue))
    case (None, _) => BadDate
    case (_, None) => BadTime
    case (Some(date), Some(time)) => Solved(Solve(off, Target(date, time)))
  }

  // ---- digits ----

  lemma TwoDigits(n: nat)
    requires n < 100
    ensures Pad(n) == [Digit(n / 10), Digit(n % 10)]
  {
    if n >= 10 {
      assert Decimal(n / 10) == [Digit(n / 10)];
    }
  }

  lemma FourDigits(n: nat)
    requires 1000 <= n < 10000
    ensures Decimal(n) == [Digit(n / 1000), Digit(n / 100 % 10), Digit(n / 10 % 10), Digit(n % 10)]
  {
    assert n / 10 / 10 == n / 100 && n / 100 / 10 == n / 1000;
    assert Decimal(n / 1000) == [Digit(n / 1000)];
    assert Decimal(n / 100) == [Digit(n / 1000), Digit(n / 100 % 10)];
    assert Decimal(n / 10) == [Digit(n / 1000), Digit(n / 100 % 10), Digit(n / 10 % 10)];
  }

  lemma {:induction false} DigitCount(n: nat)
    ensures |Decimal(n)| >= 1
    ensures n < 1000 ==> |Decimal(n)| < 4
    ensures n >= 10000 ==> |Decimal(n)| > 4
  {
    if n >= 10 {
      DigitCount(n / 10);
      if n >= 10000 {
        FourDigitsOrMore(n / 10);
      }
      if n < 1000 && n / 10 >= 10 {
        assert n / 10 / 10 < 10;
        assert Decimal(n / 10) == Decimal(n / 10 / 10) + [Digit(n / 10 % 10)];
      }
    }
  }

  lemma {:induction false} FourDigitsOrMore(n: nat)
    requires n >= 1000
    ensures |Decimal(n)| >= 4
  {
    if n >= 10000 {
      FourDigitsOrMore(n / 10);
    } else {
      FourDigits(n);
    }
  }

  lemma DigitsAdd(n: nat)
    requires n < 10000
    ensures n == 100 * (n / 100) + n % 100
    ensures n / 100 == 10 * (n / 1000) + n / 100 % 10
    ensures n % 100 == 10 * (n / 10 % 10) + n % 10
  {
    assert n / 1000 == n / 100 / 10;
    assert n == 100 * (n / 1000 * 10 + n / 100 % 10) + (n / 10 % 10 * 10 + n % 10);
  }

  // ---- the two directions ----

  /** A written date reads back exactly when its year has four digits. */
  lemma DatesReadBackExactly(y: nat, m: nat, d: nat)
    requires m < 100 && d < 100
    ensures ParseDate(DateText(y, m, d)) == if 1000 <= y <= 9999 then Some((y as int, m as int, d as int)) else None
  {
    var s := DateText(y, m, d);
    DigitCount(y);
    TwoDigits(m);
    TwoDigits(d);
    if 1000 <= y <= 9999 {
      FourDigits(y);
      DigitsAdd(y);
      assert s == [Digit(y / 1000), Digit(y / 100 % 10), Digit(y / 10 % 10), Digit(y % 10), '-',
                   Digit(m / 10), Digit(m % 10), '-', Digit(d / 10), Digit(d % 10)];
    } else {
      assert |s| != 10;
    }
  }

  lemma TimesReadBack(h: nat, m: nat)
    requires h < 24 && m < 60
    ensures ParseTime(TimeText(h, m)) == Some((h as int, m as int))
  {
    TwoDigits(h);
    TwoDigits(m);
    assert TimeText(h, m) == [Digit(h / 10), Digit(h % 10), ':', Digit(m / 10), Digit(m % 10)];
  }

  lemma ReadTwo(c: char, d: char, n: int)
    requires '0' <= c <= '9' && '0' <= d <= '9' && n == 10 * Value(c) + Value(d)
    ensures 0 <= n < 100 && Pad(n) == [c, d]
  {
    TwoDigits(n);
  }

  lemma ReadFour(a: char, b: char, c: char, d: char, n: int)
    requires '0' <= a <= '9' && '0' <= b <= '9' && '0' <= c <= '9' && '0' <= d <= '9'
    requires n == 100 * (10 * Value(a) + Value(b)) + (10 * Value(c) + Value(d)) && n >= 1000
    ensures n < 10000 && Decimal(n) == [a, b, c, d]
  {
    FourDigits(n);
    DigitsOfFour(Value(a), Value(b), Value(c), Value(d));
  }

  lemma DigitsOfFour(a: int, b: int, c: int, d: int)
    requires 0 <= a < 10 && 0 <= b < 10 && 0 <= c < 10 && 0 <= d < 10
    ensures var n := 100 * (10 * a + b) + (10 * c + d);
            n / 1000 == a && n / 100 % 10 == b && n / 10 % 10 == c && n % 10 == d
  {
  }

  lemma ReadDatesAreWritten(s: string)
    requires ParseDate(s).Some? && ParseDate(s).value.0 >= 1000
    ensures var (y, m, d) := ParseDate(s).value; m >= 0 && d >= 0 && DateText(y, m, d) == s
  {
    var (y, m, d) := ParseDate(s).value;
    ReadFour(s[0], s[1], s[2], s[3], y);
    ReadTwo(s[5], s[6], m);
    ReadTwo(s[8], s[9], d);
    assert s == [s[0], s[1], s[2], s[3]] + "-" + [s[5], s[6]] + "-" + [s[8], s[9]];
  }

  lemma ReadTimesAreWritten(s: string)
    requires ParseTime(s).Some?
    ensures var (h, m) := ParseTime(s).value; h >= 0 && m >= 0 && TimeText(h, m) == s
  {
    var (h, m) := ParseTime(s).value;
    ReadTwo(s[0], s[1], h);
    ReadTwo(s[3], s[4], m);
    assert s == [s[0], s[1]] + ":" + [s[3], s[4]];
  }

  /** In any zone whatever, the instant found for a date and time with a four-digit year shows that very date and time. */
  lemma ResultsShowTheirInput(off: Offsets, dateValue: string, timeValue: string)
    requires LocalDateTimeToIso(off, dateValue, timeValue).Solved?
    requires LocalDateTimeToIso(off, dateValue, timeValue).outcome.At?
    requires ParseDate(dateValue).value.0 >= 1000
    ensures var u := LocalDateTimeToIso(off, dateValue, timeValue).outcome.instant;
            DateValueInTimeZone(off, u) == dateValue && TimeValueInTimeZone(off, u) == timeValue
  {
    ReadDatesAreWritten(dateValue);
    ReadTimesAreWritten(timeValue);
  }

  /**
   The texts of an instant on a whole minute lead back to an instant with the same texts, and to the
   instant itself unless another one shows the same local time.
   */
  lemma InstantsRoundTrip(off: Offsets, u: int, s: int, a: int, b: int)
    requires 1000 <= PartsOf(Local(off, u)).year <= 9999 && PartsOf(Local(off, u)).second == 0
    requires Zone(off, Local(off, u), s, a, b)
    ensures var reply := LocalDateTimeToIso(off, DateValueInTimeZone(off, u), TimeValueInTimeZone(off, u));
            && reply.Solved? && reply.outcome.At?
            && Shown(off, reply.outcome.instant) == Shown(off, u)
            && (reply.outcome.instant == u || Twice(off, Local(off, u)))
  {
    var p := PartsOf(Local(off, u));
    DatesReadBackExactly(p.year, p.month, p.day);
    TimesReadBack(p.hour, p.minute);
    assert Target((p.year, p.month, p.day), (p.hour, p.minute)) == p;
    ShownIsFound(off, u, p, s, a, b);
  }

  lemma ShownIsFound(off: Offsets, u: int, p: Parts, s: int, a: int, b: int)
    requires p == PartsOf(Local(off, u)) && p.year > 100 && Zone(off, Local(off, u), s, a, b)
    ensures Solve(off, p).At? && Local(off, Solve(off, p).instant) == Local(off, u)
    ensures Solve(off, p).instant == u || Twice(off, Local(off, u))
  {
    LaterYearsAreLegible(off, p);
    SolvesExactly(off, p, s, a, b);
    assert Shows(off, Local(off, u));
  }

  /** Years come first, then months, then days, and hours before minutes; the short ones are padded. */
  lemma TextsInOrder()
    ensures DateText(2024, 3, 5) == "2024-03-05" && ParseDate("2024-03-05") == Some((2024, 3, 5))
    ensures TimeText(7, 30) == "07:30" && ParseTime("07:30") == Some((7, 30))
  {
    DateInOrder();
    TimeInOrder();
  }

  lemma DateInOrder()
    ensures DateText(2024, 3, 5) == "2024-03-05" && ParseDate("2024-03-05") == Some((2024, 3, 5))
  {
    TwoDigits(3);
    TwoDigits(5);
    FourDigits(2024);
    DatesReadBackExactly(2024, 3, 5);
  }

  lemma TimeInOrder()
    ensures TimeText(7, 30) == "07:30" && ParseTime("07:30") == Some((7, 30))
  {
    TwoDigits(7);
    TwoDigits(30);
    TimesReadBack(7, 30);
  }

  /** A form field is refused, date before time, unless it is digits in their places; then the instant is solved for. */
  lemma RepliesExactly(off: Offsets, dateValue: string, timeValue: string)
    ensures var reply := LocalDateTimeToIso(off, dateValue, timeValue);
            var dateOk := |dateValue| == 10 && dateValue[4] == '-' && dateValue[7] == '-'
                          && forall i :: 0 <= i < 10 && i != 4 && i != 7 ==> '0' <= dateValue[i] <= '9';
            var timeOk := |timeValue| == 5 && timeValue[2] == ':'
                          && (forall i :: 0 <= i < 5 && i != 2 ==> '0' <= timeValue[i] <= '9')
                          && (timeValue[0] < '2' || (timeValue[0] == '2' && timeValue[1] < '4')) && timeValue[3] < '6';
            && (reply == BadDate <==> !dateOk)
            && (reply == BadTime <==> dateOk && !timeOk)
  {
  }
}
