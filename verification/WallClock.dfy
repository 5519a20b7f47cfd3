/**
 From a wall clock to the instant that shows it. A time zone is its offset from UTC
 at every instant; all times are whole seconds.
 */
module WallClock {
  import opened Calendar
  import opened ClockSearch

  type Offsets = int -> int

  datatype Outcome = At(instant: int) | InvalidDate | Nonexistent | Ambiguous

  function Local(off: Offsets, u: int): int { u + off(u) }

  /** The formatter counts the years before year 1 backwards. */
  function Display(p: Parts): Parts { if p.year <= 0 then p.(year := 1 - p.year) else p }

  /** What the formatter shows at an instant. */
  function Shown(off: Offsets, u: int): Parts { Display(PartsOf(Local(off, u))) }

  /** What the formatter shows, read back as if it were UTC. */
  function ClockOf(off: Offsets): Clock { u => DateUtc(Shown(off, u)) }

  predicate SameDate(p: Parts, q: Parts) { p.year == q.year && p.month == q.month && p.day == q.day }

  predicate Accepted(target: Parts) { SameDate(PartsOf(DateUtc(target)), target) }

  function Guess(off: Offsets, target: Parts): int { Iterate(ClockOf(off), DateUtc(target), DateUtc(target), 4) }

  function Solve(off: Offsets, target: Parts): Outcome {
    if !Accepted(target) then InvalidDate
    else if Shown(off, Guess(off, target)) == target then At(Guess(off, target))
    else Nonexistent
  }

  method ZonedDateTimeToUtc(off: Offsets, target: Parts) returns (r: Outcome)
    ensures r == Solve(off, target)
  {
    if !Accepted(target) {
      return InvalidDate;
    }
    var guess := Search(ClockOf(off), DateUtc(target));
    return if Shown(off, guess) == target then At(guess) else Nonexistent;
  }

  function Hits(off: Offsets, target: Parts): int -> bool { u => Shown(off, u) == target }

  ghost function Unambiguous(off: Offsets, target: Parts): Outcome {
    var r := Solve(off, target);
    if r.At? && HitNearby(Hits(off, target), r.instant) then Ambiguous else r
  }

  method UnambiguousLocalDateTimeToIso(off: Offsets, target: Parts) returns (r: Outcome)
    ensures r == Unambiguous(off, target)
  {
    r := ZonedDateTimeToUtc(off, target);
    if r.At? {
      var again := Scan(Hits(off, Shown(off, r.instant)), r.instant);
      if again {
        r := Ambiguous;
      }
    }
  }

  // ---- which dates are refused ----

  /** The date is refused exactly when the calendar lacks it or its year has fewer than three digits. */
  lemma InvalidExactly(off: Offsets, target: Parts)
    requires IsClock(target)
    ensures Solve(off, target) == InvalidDate <==> !IsDate(target.year, target.month, target.day) || 0 <= target.year <= 99
  {
    if 0 <= target.year <= 99 {
      ShortYear(target);
    } else {
      ReadsBackExactly(target);
      SameParts(target, PartsOf(MakeTime(target)));
    }
  }

  lemma SameParts(p: Parts, q: Parts)
    requires IsClock(p) && IsParts(q) && MakeTime(p) == MakeTime(q)
    ensures SameDate(q, p) <==> p == q
  {
    if SameDate(q, p) {
      ClocksAreDistinct(MakeDay(p.year, p.month, p.day), MakeDay(q.year, q.month, q.day), p, q);
    }
  }

  lemma ShortYear(target: Parts)
    requires IsClock(target) && 0 <= target.year <= 99
    ensures !Accepted(target)
  {
    var late := target.(year := 1900 + target.year);
    var p := PartsOf(DateUtc(target));
    if SameDate(p, target) {
      DifferentYears(p, late);
    }
  }

  lemma DifferentYears(p: Parts, q: Parts)
    requires IsParts(p) && IsClock(q) && p.year < q.year && p.month == q.month && p.day == q.day
    ensures MakeTime(p) != MakeTime(q)
  {
    LaterYear(p.year, q.year, p.month, p.day);
    if MakeTime(p) == MakeTime(q) {
      ClocksAreDistinct(MakeDay(p.year, p.month, p.day), MakeDay(q.year, q.month, q.day), p, q);
    }
  }

  lemma LaterYear(y: int, z: int, m: int, d: int)
    requires y < z && 1 <= m <= 12
    ensures MakeDay(y, m, d) < MakeDay(z, m, d)
  {
    PlainDay(y, m, d);
    PlainDay(z, m, d);
    YearsInOrder(y, z);
  }

  // ---- one transition ----

  /** Within a day of a local time, the offset is `a` before instant `s` and `b` from then on; it never exceeds a day. */
  ghost predicate Zone(off: Offsets, t: int, s: int, a: int, b: int) {
    && (forall u :: -DAY <= off(u) <= DAY)
    && (forall u :: Near(t, u) ==> off(u) == if u < s then a else b)
  }

  function YearHundred(): int { DaysBeforeYear(100) * DAY }

  /** A date and time of the calendar from the year 100 on. */
  predicate Modern(target: Parts) { IsParts(target) && target.year >= 100 }

  lemma YearOfTime(p: Parts, y: int)
    requires IsParts(p)
    ensures p.year >= y <==> MakeTime(p) >= DaysBeforeYear(y) * DAY
  {
    ClockBelowDay(p);
    DayInYear(p);
    if p.year >= y {
      YearsInOrder(y, p.year);
    } else {
      YearsInOrder(p.year + 1, y);
    }
  }

  /** From a few days before the year 100 on, what is shown determines the local time. */
  lemma ShownIsLocal(off: Offsets, u: int, target: Parts)
    requires Modern(target) && Local(off, u) >= YearHundred() - 3 * DAY
    ensures Shown(off, u) == target <==> Local(off, u) == MakeTime(target)
    ensures Local(off, u) >= YearHundred() ==> ClockOf(off)(u) == Local(off, u)
  {
    var p := PartsOf(Local(off, u));
    NextYear(99);
    YearOfTime(p, 99);
    YearOfTime(p, 100);
    if p == target {
      assert Local(off, u) == MakeTime(target);
    }
    if Local(off, u) == MakeTime(target) {
      MomentsAreDistinct(p, target);
    }
  }

  ghost predicate Shows(off: Offsets, t: int) { exists u :: Local(off, u) == t }

  /** Two different instants show the same local time. */
  ghost predicate Twice(off: Offsets, t: int) {
    exists u, v :: u != v && Local(off, u) == t && Local(off, v) == t
  }

  // ---- a reading before the year 100 ----

  lemma LaterParts(p: Parts, y: int)
    requires 1 <= p.month <= 12 && 1 <= p.day && IsClock(p) && y <= p.year
    ensures MakeTime(p) >= DaysBeforeYear(y) * DAY
  {
    ClockBelowDay(p);
    PlainDay(p.year, p.month, p.day);
    YearsInOrder(y, p.year);
  }

  /** Whatever is shown, it is never read as a time before the year 100; the year 99 is read as 1999. */
  lemma NeverReadsEarlier(off: Offsets, u: int)
    ensures ClockOf(off)(u) >= YearHundred()
    ensures PartsOf(Local(off, u)).year == 99 ==> ClockOf(off)(u) >= DaysBeforeYear(1999) * DAY
  {
    var shown := Shown(off, u);
    if shown.year == 99 {
      LaterParts(shown.(year := 1999), 1999);
      YearsInOrder(100, 1999);
    } else if shown.year < 99 {
      LaterParts(shown.(year := 1900 + shown.year), 100);
    } else {
      LaterParts(shown, 100);
    }
  }

  lemma {:induction false} YearsAreShort(y: int, z: int)
    requires y <= z
    ensures DaysBeforeYear(z) <= DaysBeforeYear(y) + 366 * (z - y)
    decreases z - y
  {
    if y < z {
      YearsAreShort(y, z - 1);
      NextYear(z - 1);
    }
  }

  lemma ReadingIsLate(off: Offsets, target: Parts, guess: int)
    requires Modern(target) && Near(MakeTime(target), guess) && -DAY <= off(guess) <= DAY
    requires Local(off, guess) < YearHundred()
    ensures YearHundred() <= MakeTime(target) <= YearHundred() + 2 * DAY
    ensures ClockOf(off)(guess) >= MakeTime(target) + 365 * 1890 * DAY
  {
    YearOfTime(target, 100);
    var p := PartsOf(Local(off, guess));
    NextYear(99);
    YearOfTime(p, 99);
    YearOfTime(p, 100);
    NeverReadsEarlier(off, guess);
    YearsInOrder(100, 1999);
  }

  /** Far in the past the shown year is larger than 100, counted backwards. */
  lemma FarPastIsNotShown(off: Offsets, target: Parts, u: int)
    requires Modern(target) && MakeTime(target) <= YearHundred() + 2 * DAY
    requires u <= MakeTime(target) - 365 * 1000 * DAY && -DAY <= off(u) <= DAY
    ensures Shown(off, u) != target
  {
    NextYear(100);
    YearOfTime(target, 101);
    var p := PartsOf(Local(off, u));
    YearsAreShort(-99, 100);
    YearOfTime(p, -99);
  }

  /** The clock as it is shown, whatever its year. */
  function LocalClock(off: Offsets): Clock { u => Local(off, u) }

  /** The search's first two readings show no year below 100. */
  predicate LegibleAt(off: Offsets, t: int) { Legible(LocalClock(off), t, YearHundred()) }

  lemma SearchMisreads(off: Offsets, target: Parts)
    requires Modern(target) && forall u :: -DAY <= off(u) <= DAY
    ensures Misreads(ClockOf(off), LocalClock(off), Hits(off, target), MakeTime(target), YearHundred())
  {
    var t := MakeTime(target);
    YearOfTime(target, 100);
    forall u ensures -DAY <= LocalClock(off)(u) - u <= DAY {
      assert -DAY <= off(u) <= DAY;
    }
    forall u ensures ClockOf(off)(u) >= YearHundred() {
      NeverReadsEarlier(off, u);
    }
    forall u | LocalClock(off)(u) >= YearHundred() ensures ClockOf(off)(u) == LocalClock(off)(u) {
      ShownIsLocal(off, u, target);
    }
    forall u | Near(t, u) && LocalClock(off)(u) < YearHundred() ensures ClockOf(off)(u) >= t + 365 * 1890 * DAY {
      assert -DAY <= off(u) <= DAY;
      ReadingIsLate(off, target, u);
    }
    forall u | LocalClock(off)(u) >= YearHundred() - 3 * DAY ensures Hits(off, target)(u) <==> LocalClock(off)(u) == t {
      ShownIsLocal(off, u, target);
    }
    if t <= YearHundred() + 2 * DAY {
      forall u | u <= t - 365 * 1000 * DAY ensures !Hits(off, target)(u) {
        assert -DAY <= off(u) <= DAY;
        FarPastIsNotShown(off, target, u);
      }
    }
  }

  lemma ShowsNearby(off: Offsets, t: int, s: int, a: int, b: int)
    requires Zone(off, t, s, a, b)
    ensures OneTransition(LocalClock(off), t, s, a, b)
    ensures Reads(LocalClock(off), t) <==> Shows(off, t)
    ensures ReadsTwice(LocalClock(off), t) <==> Twice(off, t)
  {
    forall u ensures Local(off, u) == t ==> Near(t, u) {
      assert -DAY <= off(u) <= DAY;
    }
  }

  /**
   With one transition near the target, the search returns an instant exactly when some instant shows
   the target and its first two readings show no year below 100; what it returns shows the target.
   */
  lemma SolvesExactly(off: Offsets, target: Parts, s: int, a: int, b: int)
    requires Modern(target) && Zone(off, MakeTime(target), s, a, b)
    ensures Solve(off, target).At? <==> Shows(off, MakeTime(target)) && LegibleAt(off, MakeTime(target))
    ensures Solve(off, target).At? ==>
              Local(off, Solve(off, target).instant) == MakeTime(target) && Near(MakeTime(target), Solve(off, target).instant)
    ensures !Solve(off, target).At? ==> Solve(off, target) == Nonexistent
  {
    InvalidExactly(off, target);
    SearchMisreads(off, target);
    ShowsNearby(off, MakeTime(target), s, a, b);
    SearchExactly(ClockOf(off), LocalClock(off), Hits(off, target), MakeTime(target), YearHundred(), s, a, b);
    SolveByHits(off, target);
  }

  lemma SolveByHits(off: Offsets, target: Parts)
    requires Accepted(target) && target.year >= 100
    ensures var guess := Iterate(ClockOf(off), MakeTime(target), MakeTime(target), 4);
            Solve(off, target) == if Hits(off, target)(guess) then At(guess) else Nonexistent
  {
  }

  /** Every wall clock after the year 100 is legible in every zone, so there four iterations suffice. */
  lemma LaterYearsAreLegible(off: Offsets, target: Parts)
    requires IsParts(target) && target.year > 100 && forall u :: -DAY <= off(u) <= DAY
    ensures Modern(target) && LegibleAt(off, MakeTime(target))
  {
    NextYear(100);
    YearOfTime(target, 101);
    var t := MakeTime(target);
    assert -DAY <= off(t) <= DAY && -DAY <= off(t - off(t)) <= DAY;
  }

  // ---- ambiguity ----

  lemma NearbyHits(off: Offsets, target: Parts, instant: int)
    requires Modern(target) && Near(MakeTime(target), instant) && forall u :: -DAY <= off(u) <= DAY
    ensures HitsAreReads(LocalClock(off), MakeTime(target), Hits(off, target), instant)
  {
    var t := MakeTime(target);
    YearOfTime(target, 100);
    forall u | instant - 10800 <= u <= instant + 10800
      ensures Hits(off, target)(u) == (Near(t, u) && LocalClock(off)(u) == t)
    {
      assert -DAY <= off(u) <= DAY;
      ShownIsLocal(off, u, target);
    }
  }

  /**
   With one transition near a legible target, the ambiguity error comes exactly when two instants show
   it and the transition is a whole number of quarter-hours, at most three hours.
   */
  lemma AmbiguityExactly(off: Offsets, target: Parts, s: int, a: int, b: int)
    requires Modern(target) && Zone(off, MakeTime(target), s, a, b)
    ensures var t := MakeTime(target);
            var r := Unambiguous(off, target);
            && (r == Ambiguous <==> LegibleAt(off, t) && Twice(off, t) && Detectable(a - b))
            && (r == Nonexistent <==> !(LegibleAt(off, t) && Shows(off, t)))
            && r != InvalidDate
            && (r.At? ==> Local(off, r.instant) == t)
  {
    var t := MakeTime(target);
    SolvesExactly(off, target, s, a, b);
    if Solve(off, target).At? {
      var u := Solve(off, target).instant;
      ShowsNearby(off, t, s, a, b);
      NearbyHits(off, target, u);
      ScanExactly(LocalClock(off), t, s, a, b, Hits(off, target), u);
    } else {
      assert Twice(off, t) ==> Shows(off, t);
    }
  }

  /**
   For transitions of whole quarter-hours up to three hours and a legible target, a result is the only
   such instant, and the error means two.
   */
  lemma ReturnsOnlyUnambiguous(off: Offsets, target: Parts, s: int, a: int, b: int)
    requires Modern(target) && Zone(off, MakeTime(target), s, a, b) && Detectable(a - b)
    ensures var t := MakeTime(target);
            var r := Unambiguous(off, target);
            && (r == Ambiguous <==> LegibleAt(off, t) && Twice(off, t))
            && (r.At? <==> LegibleAt(off, t) && Shows(off, t) && !Twice(off, t))
            && forall u, v :: r == At(u) ==> (Local(off, v) == t <==> v == u)
  {
    AmbiguityExactly(off, target, s, a, b);
  }

  // ---- the two ways of failing, and the unnoticed ambiguity, at concrete inputs ----

  function FirstMinutes(minute: int): Parts { Parts(100, 1, 1, 0, minute, 0) }

  lemma YearHundredBegins(minute: int)
    requires 0 <= minute < 60
    ensures Modern(FirstMinutes(minute)) && MakeTime(FirstMinutes(minute)) == YearHundred() + 60 * minute
  {
    PlainDay(100, 1, 1);
  }

  /** Where every instant has the same offset, or one of two, the solver's answer at a target is plain. */
  lemma FailsWhen(off: Offsets, target: Parts, t: int, s: int, a: int, b: int, w: int)
    requires Modern(target) && t == MakeTime(target) && Zone(off, t, s, a, b)
    requires w + off(w) == t && (t + off(t) < YearHundred() || t - off(t) + off(t - off(t)) < YearHundred())
    ensures Solve(off, target) == Nonexistent && Shows(off, t)
  {
    SolvesExactly(off, target, s, a, b);
    assert Local(off, w) == t;
  }

  /** Five hours west of Greenwich, 0100-01-01 00:00 is called nonexistent, though an instant shows it. */
  lemma FirstReadingFails(off: Offsets)
    requires forall u :: off(u) == -18000
    ensures Solve(off, FirstMinutes(0)) == Nonexistent && Shows(off, MakeTime(FirstMinutes(0)))
  {
    YearHundredBegins(0);
    var t := MakeTime(FirstMinutes(0));
    FailsWhen(off, FirstMinutes(0), t, 0, -18000, -18000, t + 18000);
  }

  /** East of Greenwich, where clocks go forward an hour right before it, so is 0100-01-01 00:30: the second reading is too early. */
  lemma SecondReadingFails(off: Offsets)
    requires forall u :: off(u) == if u < MakeTime(FirstMinutes(30)) then 3600 else 7200
    ensures Solve(off, FirstMinutes(30)) == Nonexistent && Shows(off, MakeTime(FirstMinutes(30)))
  {
    YearHundredBegins(30);
    var t := MakeTime(FirstMinutes(30));
    FailsWhen(off, FirstMinutes(30), t, t, 3600, 7200, t - 3600);
  }

  /** A wall clock shown twice, when clocks go back by ten minutes or by four hours right after it, is taken as unambiguous. */
  lemma OddFoldsGoUnnoticed(off: Offsets, back: int)
    requires back == 600 || back == 14400
    requires forall u :: off(u) == if u <= MakeTime(Parts(2000, 1, 1, 0, 0, 0)) then 0 else -back
    ensures Unambiguous(off, Parts(2000, 1, 1, 0, 0, 0)).At? && Twice(off, MakeTime(Parts(2000, 1, 1, 0, 0, 0)))
  {
    OddFold(off, Parts(2000, 1, 1, 0, 0, 0), back);
  }

  lemma OddFold(off: Offsets, target: Parts, back: int)
    requires IsParts(target) && target.year > 100 && 0 < back <= DAY && !Detectable(back)
    requires forall u :: off(u) == if u <= MakeTime(target) then 0 else -back
    ensures Unambiguous(off, target).At? && Twice(off, MakeTime(target))
  {
    var t := MakeTime(target);
    FoldShowsTwice(off, t, back);
    FoldIsTaken(off, target, t + 1, 0, -back);
  }

  lemma FoldIsTaken(off: Offsets, target: Parts, s: int, a: int, b: int)
    requires IsParts(target) && target.year > 100 && Zone(off, MakeTime(target), s, a, b) && Shows(off, MakeTime(target))
    requires !Detectable(a - b)
    ensures Unambiguous(off, target).At?
  {
    LaterYearsAreLegible(off, target);
    AmbiguityExactly(off, target, s, a, b);
  }

  lemma FoldShowsTwice(off: Offsets, t: int, back: int)
    requires 0 < back <= DAY && forall u :: off(u) == if u <= t then 0 else -back
    ensures Zone(off, t, t + 1, 0, -back) && Twice(off, t) && Shows(off, t)
    ensures Detectable(0 - -back) <==> Detectable(back)
  {
    assert Local(off, t) == t && Local(off, t + back) == t;
  }
}
