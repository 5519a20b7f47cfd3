/**
 Does the solved timetable keep enough people working? The worker samples the
 segments between consecutive shift and break boundaries; these proofs show that
 the sample decides the claim for every instant.
 */
module Coverage {
  import opened Results
  import opened Shifts
  import opened Coalesce
  import opened CoalesceMeaning

  /** A demand for `required` people, all with `skill` when one is named. */
  datatype Window = Window(start: int, end: int, required: int, skill: Option<string>)

  /** Normalised skill names by staff member. */
  type Skills = map<string, set<string>>

  predicate Qualified(skills: Skills, skill: Option<string>, s: Shift) {
    skill.None? || (s.staff in skills && skill.value in skills[s.staff])
  }

  // ---- the claim about instants ----

  predicate WorkingAt(s: Shift, t: int) {
    s.start <= t < s.end && forall b <- s.breaks :: !(b.start <= t < b.end)
  }

  function CountAt(shifts: seq<Shift>, skills: Skills, skill: Option<string>, t: int): nat {
    if shifts == [] then 0
    else
      var n := |shifts| - 1;
      CountAt(shifts[..n], skills, skill, t) + if WorkingAt(shifts[n], t) && Qualified(skills, skill, shifts[n]) then 1 else 0
  }

  /** At every instant from `low` up to `high`, enough people work, and enough qualified ones. */
  ghost predicate CoveredThroughout(shifts: seq<Shift>, skills: Skills, skill: Option<string>, low: int, high: int, required: int) {
    forall t :: low <= t < high ==>
      && CountAt(shifts, skills, None, t) >= required
      && CountAt(shifts, skills, skill, t) >= required
  }

  // ---- the claim about segments ----

  predicate WorkingOver(s: Shift, a: int, b: int) {
    s.start <= a && s.end >= b && !exists x <- s.breaks :: x.start < b && x.end > a
  }

  function CountOver(shifts: seq<Shift>, skills: Skills, skill: Option<string>, a: int, b: int): nat {
    if shifts == [] then 0
    else
      var n := |shifts| - 1;
      CountOver(shifts[..n], skills, skill, a, b) + if WorkingOver(shifts[n], a, b) && Qualified(skills, skill, shifts[n]) then 1 else 0
  }

  /** The shift or one of its breaks begins or ends at `e`. */
  ghost predicate IsEvent(s: Shift, e: int) {
    e == s.start || e == s.end || exists x <- s.breaks :: e == x.start || e == x.end
  }

  /** Where nothing begins or ends inside a segment, the segment test is the instant test. */
  lemma SegmentIsInstant(s: Shift, a: int, b: int, t: int)
    requires a <= t < b
    requires forall e :: a < e < b ==> !IsEvent(s, e)
    ensures WorkingOver(s, a, b) <==> WorkingAt(s, t)
  {
    assert !(a < s.start < b) && !(a < s.end < b) by {
      assert IsEvent(s, s.start) && IsEvent(s, s.end);
    }
    forall x | x in s.breaks ensures (x.start < b && x.end > a) <==> x.start <= t < x.end {
      assert IsEvent(s, x.start) && IsEvent(s, x.end);
    }
  }

  lemma {:induction false} CountsAgree(shifts: seq<Shift>, skills: Skills, skill: Option<string>, a: int, b: int, t: int)
    requires a <= t < b
    requires forall s, e :: s in shifts && a < e < b ==> !IsEvent(s, e)
    ensures CountOver(shifts, skills, skill, a, b) == CountAt(shifts, skills, skill, t)
  {
    if shifts != [] {
      var n := |shifts| - 1;
      CountsAgree(shifts[..n], skills, skill, a, b, t);
      SegmentIsInstant(shifts[n], a, b, t);
    }
  }

  lemma CountsAgreeThroughout(shifts: seq<Shift>, skills: Skills, skill: Option<string>, a: int, b: int)
    requires forall s, e :: s in shifts && a < e < b ==> !IsEvent(s, e)
    ensures forall t :: a <= t < b ==> CountOver(shifts, skills, skill, a, b) == CountAt(shifts, skills, skill, t)
  {
    forall t | a <= t < b ensures CountOver(shifts, skills, skill, a, b) == CountAt(shifts, skills, skill, t) {
      CountsAgree(shifts, skills, skill, a, b, t);
    }
  }

  // ---- sorted boundaries ----

  ghost predicate Increasing(s: seq<int>) {
    forall i, j :: 0 <= i < j < |s| ==> s[i] < s[j]
  }

  lemma Member<T(!new)>(s: set<T>) returns (x: T)
    requires s != {}
    ensures x in s
  {
    x :| x in s;
  }

  lemma {:induction false} LeastExists(s: set<int>)
    requires s != {}
    ensures exists m :: m in s && forall y :: y in s ==> m <= y
  {
    var x := Member(s);
    var rest := s - {x};
    if rest == {} {
      assert s == {x};
      assert x in s;
    } else {
      LeastExists(rest);
      var m :| m in rest && forall y :: y in rest ==> m <= y;
      var least := if x < m then x else m;
      assert least in s && forall y :: y in s ==> y == x || y in rest;
    }
  }

  function Least(s: set<int>): (m: int)
    requires s != {}
    ensures m in s && forall y :: y in s ==> m <= y
  {
    LeastExists(s);
    var m :| m in s && forall y :: y in s ==> m <= y;
    m
  }

  function Ascending(s: set<int>): (r: seq<int>)
    ensures Increasing(r)
    ensures forall x :: x in r <==> x in s
    ensures |r| == |s|
  {
    if s == {} then []
    else
      var m := Least(s);
      var rest := Ascending(s - {m});
      StillIncreasing(m, rest);
      [m] + rest
  }

  lemma StillIncreasing(m: int, rest: seq<int>)
    requires Increasing(rest) && forall x :: x in rest ==> m < x
    ensures Increasing([m] + rest)
  {
    assert forall i :: 0 <= i < |rest| ==> rest[i] in rest;
  }

  /** The boundary set holds its two ends and every event strictly between them. */
  ghost predicate Complete(boundaries: set<int>, shifts: seq<Shift>, low: int, high: int) {
    && low in boundaries && high in boundaries
    && (forall x :: x in boundaries ==> low <= x <= high)
    && (forall s, e :: s in shifts && low < e < high && IsEvent(s, e) ==> e in boundaries)
  }

  lemma NothingBetween(ordered: seq<int>, i: nat, e: int)
    requires Increasing(ordered) && i + 1 < |ordered| && ordered[i] < e < ordered[i + 1]
    ensures e !in ordered
  {
    forall k | 0 <= k < |ordered| ensures ordered[k] != e {
      assert k <= i ==> ordered[k] <= ordered[i];
      assert i < k ==> ordered[i + 1] <= ordered[k];
    }
  }

  lemma SegmentsAreQuiet(boundaries: set<int>, shifts: seq<Shift>, low: int, high: int, i: nat)
    requires Complete(boundaries, shifts, low, high) && i + 1 < |Ascending(boundaries)|
    ensures var ordered := Ascending(boundaries);
            && low <= ordered[i] < ordered[i + 1] <= high
            && forall s, e :: s in shifts && ordered[i] < e < ordered[i + 1] ==> !IsEvent(s, e)
  {
    var ordered := Ascending(boundaries);
    assert ordered[i] in ordered && ordered[i + 1] in ordered;
    forall s, e | s in shifts && ordered[i] < e < ordered[i + 1] ensures !IsEvent(s, e) {
      NothingBetween(ordered, i, e);
    }
  }

  lemma EndsOfAscending(boundaries: set<int>, shifts: seq<Shift>, low: int, high: int)
    requires Complete(boundaries, shifts, low, high) && low < high
    ensures var ordered := Ascending(boundaries);
            |ordered| >= 2 && ordered[0] == low && ordered[|ordered| - 1] == high
  {
    var ordered := Ascending(boundaries);
    assert low in ordered && high in ordered;
    var i :| 0 <= i < |ordered| && ordered[i] == low;
    var j :| 0 <= j < |ordered| && ordered[j] == high;
    assert ordered[0] in ordered && ordered[|ordered| - 1] in ordered;
  }

  /** A segment's counts decide for all of its instants at once. */
  lemma SegmentDecides(boundaries: set<int>, shifts: seq<Shift>, skills: Skills, skill: Option<string>,
                       low: int, i: nat, high: int, required: int)
    requires Complete(boundaries, shifts, low, high) && i + 1 < |Ascending(boundaries)|
    requires CoveredThroughout(shifts, skills, skill, low, Ascending(boundaries)[i], required)
    ensures var a, b := Ascending(boundaries)[i], Ascending(boundaries)[i + 1];
            && (CoveredThroughout(shifts, skills, skill, low, b, required) <==>
                  CountOver(shifts, skills, None, a, b) >= required && CountOver(shifts, skills, skill, a, b) >= required)
            && (CoveredThroughout(shifts, skills, skill, low, high, required) ==>
                  CoveredThroughout(shifts, skills, skill, low, b, required))
  {
    var a, b := Ascending(boundaries)[i], Ascending(boundaries)[i + 1];
    SegmentsAreQuiet(boundaries, shifts, low, high, i);
    CountsAgreeThroughout(shifts, skills, None, a, b);
    CountsAgreeThroughout(shifts, skills, skill, a, b);
    CountsDecide(shifts, skills, skill, low, a, b, high, required);
  }

  lemma CountsDecide(shifts: seq<Shift>, skills: Skills, skill: Option<string>, low: int, a: int, b: int, high: int, required: int)
    requires low <= a < b <= high && CoveredThroughout(shifts, skills, skill, low, a, required)
    requires forall t :: a <= t < b ==> CountOver(shifts, skills, None, a, b) == CountAt(shifts, skills, None, t)
    requires forall t :: a <= t < b ==> CountOver(shifts, skills, skill, a, b) == CountAt(shifts, skills, skill, t)
    ensures CoveredThroughout(shifts, skills, skill, low, b, required) <==>
              CountOver(shifts, skills, None, a, b) >= required && CountOver(shifts, skills, skill, a, b) >= required
    ensures CoveredThroughout(shifts, skills, skill, low, high, required) ==>
              CoveredThroughout(shifts, skills, skill, low, b, required)
  {
    assert CoveredThroughout(shifts, skills, skill, low, b, required) ==>
             CountAt(shifts, skills, None, a) >= required && CountAt(shifts, skills, skill, a) >= required;
  }

  /** The sweep itself: exact for every instant, whatever the boundary set was built from. */
  method SegmentsCovered(boundaries: set<int>, shifts: seq<Shift>, skills: Skills, skill: Option<string>,
                         ghost low: int, ghost high: int, required: int) returns (ok: bool)
    requires low < high && Complete(boundaries, shifts, low, high)
    ensures ok <==> CoveredThroughout(shifts, skills, skill, low, high, required)
  {
    var ordered := Ascending(boundaries);
    EndsOfAscending(boundaries, shifts, low, high);
    var i := 0;
    while i + 1 < |ordered|
      invariant 0 <= i < |ordered|
      invariant CoveredThroughout(shifts, skills, skill, low, ordered[i], required)
    {
      var a, b := ordered[i], ordered[i + 1];
      SegmentDecides(boundaries, shifts, skills, skill, low, i, high, required);
      if CountOver(shifts, skills, None, a, b) < required {
        return false;
      }
      if skill.Some? && CountOver(shifts, skills, skill, a, b) < required {
        return false;
      }
      i := i + 1;
    }
    return true;
  }

  // ---- the boundary sets of the two checks ----

  /** One shift's contribution to a window's boundaries, clipped to the window. */
  method AddClipped(boundaries: set<int>, s: Shift, low: int, high: int) returns (r: set<int>)
    requires ValidShift(s) && low < high
    requires low in boundaries && high in boundaries && forall x :: x in boundaries ==> low <= x <= high
    ensures boundaries <= r && forall x :: x in r ==> low <= x <= high
    ensures forall e :: low < e < high && IsEvent(s, e) ==> e in r
  {
    r := boundaries;
    if s.end <= low || s.start >= high {
      return;
    }
    r := r + {if s.start < low then low else s.start, if high < s.end then high else s.end};
    var k := 0;
    while k < |s.breaks|
      invariant 0 <= k <= |s.breaks|
      invariant boundaries <= r && forall x :: x in r ==> low <= x <= high
      invariant low < s.start < high ==> s.start in r
      invariant low < s.end < high ==> s.end in r
      invariant forall j :: 0 <= j < k ==>
                  && (low < s.breaks[j].start < high ==> s.breaks[j].start in r)
                  && (low < s.breaks[j].end < high ==> s.breaks[j].end in r)
    {
      var x := s.breaks[k];
      if !(x.end <= low || x.start >= high) {
        r := r + {if x.start < low then low else x.start, if high < x.end then high else x.end};
      }
      k := k + 1;
    }
  }

  method WindowBoundaries(shifts: seq<Shift>, low: int, high: int) returns (r: set<int>)
    requires AllValid(shifts) && low < high
    ensures Complete(r, shifts, low, high)
  {
    r := {low, high};
    var i := 0;
    while i < |shifts|
      invariant 0 <= i <= |shifts|
      invariant Complete(r, shifts[..i], low, high)
    {
      assert shifts[i] in shifts;
      r := AddClipped(r, shifts[i], low, high);
      assert forall s :: s in shifts[..i + 1] ==> s in shifts[..i] || s == shifts[i];
      i := i + 1;
    }
    assert shifts[..i] == shifts;
  }

  /** `validate_solved_demand_coverage` for the requested windows. */
  method ValidateWindows(windows: seq<Window>, shifts: seq<Shift>, skills: Skills) returns (ok: bool)
    requires AllValid(shifts) && forall w :: w in windows ==> w.start < w.end
    ensures ok <==> forall w :: w in windows ==> CoveredThroughout(shifts, skills, w.skill, w.start, w.end, w.required)
  {
    var i := 0;
    while i < |windows|
      invariant 0 <= i <= |windows|
      invariant forall k :: 0 <= k < i ==>
                  CoveredThroughout(shifts, skills, windows[k].skill, windows[k].start, windows[k].end, windows[k].required)
    {
      var w := windows[i];
      assert w in windows;
      var boundaries := WindowBoundaries(shifts, w.start, w.end);
      var covered := SegmentsCovered(boundaries, shifts, skills, w.skill, w.start, w.end, w.required);
      if !covered {
        return false;
      }
      i := i + 1;
    }
    return true;
  }

  /** Every end point of a day's shifts and breaks. */
  function DayBoundaries(shifts: seq<Shift>): set<int> {
    (set s | s in shifts :: s.start) + (set s | s in shifts :: s.end)
    + (set s, x | s in shifts && x in s.breaks :: x.start) + (set s, x | s in shifts && x in s.breaks :: x.end)
  }

  function Earliest(shifts: seq<Shift>): int
    requires shifts != []
  {
    if |shifts| == 1 then shifts[0].start
    else
      var rest := Earliest(shifts[1..]);
      if shifts[0].start < rest then shifts[0].start else rest
  }

  function Latest(shifts: seq<Shift>): int
    requires shifts != []
  {
    if |shifts| == 1 then shifts[0].end
    else
      var rest := Latest(shifts[1..]);
      if rest < shifts[0].end then shifts[0].end else rest
  }

  lemma {:induction false} SpanOf(shifts: seq<Shift>)
    requires shifts != [] && AllValid(shifts)
    ensures Earliest(shifts) < Latest(shifts)
    ensures exists s :: s in shifts && s.start == Earliest(shifts)
    ensures exists s :: s in shifts && s.end == Latest(shifts)
    ensures forall s :: s in shifts ==> Earliest(shifts) <= s.start && s.end <= Latest(shifts)
  {
    assert ValidShift(shifts[0]);
    if |shifts| > 1 {
      SpanOf(shifts[1..]);
      assert shifts == [shifts[0]] + shifts[1..];
    }
  }

  lemma DayBoundariesInside(shifts: seq<Shift>, s: Shift, x: int)
    requires AllValid(shifts) && s in shifts && IsEvent(s, x)
    ensures Earliest(shifts) <= x <= Latest(shifts)
  {
    SpanOf(shifts);
    assert ValidShift(s);
  }

  lemma DayBoundariesHoldEnds(shifts: seq<Shift>)
    requires shifts != [] && AllValid(shifts)
    ensures Earliest(shifts) in DayBoundaries(shifts) && Latest(shifts) in DayBoundaries(shifts)
  {
    SpanOf(shifts);
    var first :| first in shifts && first.start == Earliest(shifts);
    var last :| last in shifts && last.end == Latest(shifts);
  }

  lemma DayBoundariesComplete(shifts: seq<Shift>)
    requires shifts != [] && AllValid(shifts)
    ensures Complete(DayBoundaries(shifts), shifts, Earliest(shifts), Latest(shifts))
  {
    DayBoundariesHoldEnds(shifts);
    forall x ensures x in DayBoundaries(shifts) <==> exists s :: s in shifts && IsEvent(s, x) {
      DayBoundariesAreEvents(shifts, x);
    }
    forall x | x in DayBoundaries(shifts) ensures Earliest(shifts) <= x <= Latest(shifts) {
      var s :| s in shifts && IsEvent(s, x);
      DayBoundariesInside(shifts, s, x);
    }
  }

  lemma DayBoundariesAreEvents(shifts: seq<Shift>, x: int)
    ensures x in DayBoundaries(shifts) <==> exists s :: s in shifts && IsEvent(s, x)
  {
  }

  function OnDate(shifts: seq<Shift>, dateOf: int -> int, date: int): seq<Shift> {
    if shifts == [] then []
    else
      var n := |shifts| - 1;
      OnDate(shifts[..n], dateOf, date) + if dateOf(shifts[n].start) == date then [shifts[n]] else []
  }

  lemma {:induction false} OnDateMembers(shifts: seq<Shift>, dateOf: int -> int, date: int)
    ensures forall s :: s in OnDate(shifts, dateOf, date) <==> s in shifts && dateOf(s.start) == date
  {
    if shifts != [] {
      var n := |shifts| - 1;
      OnDateMembers(shifts[..n], dateOf, date);
      assert shifts == shifts[..n] + [shifts[n]];
    }
  }

  /** A day's list holds every shift of that date as often as the solution does, and no other. */
  lemma {:induction false} OnDateOccurrences(shifts: seq<Shift>, dateOf: int -> int, date: int, s: Shift)
    ensures multiset(OnDate(shifts, dateOf, date))[s] == if dateOf(s.start) == date then multiset(shifts)[s] else 0
  {
    if shifts != [] {
      var n := |shifts| - 1;
      assert shifts == shifts[..n] + [shifts[n]];
      OnDateOccurrences(shifts[..n], dateOf, date, s);
    }
  }

  /** A date is covered when its own shifts meet the demand from the first start to the last end. */
  ghost predicate DateCovered(shifts: seq<Shift>, dateOf: int -> int, requiredOn: int -> int, date: int) {
    var day := OnDate(shifts, dateOf, date);
    day == [] || CoveredThroughout(day, map[], None, Earliest(day), Latest(day), requiredOn(date))
  }

  /** The instant lies between some start and some end of shifts that begin on the date. */
  ghost predicate WithinDay(shifts: seq<Shift>, dateOf: int -> int, date: int, t: int) {
    exists a, b :: a in shifts && b in shifts && dateOf(a.start) == date && dateOf(b.start) == date && a.start <= t < b.end
  }

  /** Which of the date's shifts are at work at an instant, by position. */
  ghost function AtWorkOn(shifts: seq<Shift>, dateOf: int -> int, date: int, t: int): set<nat> {
    set i: nat | i < |shifts| && dateOf(shifts[i].start) == date && shifts[i].start <= t < shifts[i].end
                 && forall b <- shifts[i].breaks :: !(b.start <= t < b.end)
  }

  /** From the date's first start to its last end, as many of its shifts are at work as the date demands. */
  ghost predicate DateStaffed(shifts: seq<Shift>, dateOf: int -> int, requiredOn: int -> int, date: int) {
    forall t :: WithinDay(shifts, dateOf, date, t) ==> |AtWorkOn(shifts, dateOf, date, t)| >= requiredOn(date)
  }

  lemma AtWorkWithLast(front: seq<Shift>, last: Shift, dateOf: int -> int, date: int, t: int)
    ensures |AtWorkOn(front + [last], dateOf, date, t)|
            == |AtWorkOn(front, dateOf, date, t)| + if dateOf(last.start) == date && WorkingAt(last, t) then 1 else 0
  {
    var before, after := AtWorkOn(front, dateOf, date, t), AtWorkOn(front + [last], dateOf, date, t);
    forall i: nat | i < |front| ensures i in after <==> i in before {
      assert (front + [last])[i] == front[i];
    }
    assert (front + [last])[|front|] == last;
    assert after == before + if dateOf(last.start) == date && WorkingAt(last, t) then {|front|} else {};
  }

  lemma CountWithLast(front: seq<Shift>, last: Shift, t: int)
    ensures CountAt(front + [last], map[], None, t) == CountAt(front, map[], None, t) + if WorkingAt(last, t) then 1 else 0
  {
    assert (front + [last])[..|front|] == front;
  }

  lemma {:induction false} DayCountIsPositions(shifts: seq<Shift>, dateOf: int -> int, date: int, t: int)
    ensures CountAt(OnDate(shifts, dateOf, date), map[], None, t) == |AtWorkOn(shifts, dateOf, date, t)|
  {
    if shifts != [] {
      var n := |shifts| - 1;
      var front, last := shifts[..n], shifts[n];
      assert shifts == front + [last];
      DayCountIsPositions(front, dateOf, date, t);
      AtWorkWithLast(front, last, dateOf, date, t);
      CountWithLast(OnDate(front, dateOf, date), last, t);
      assert OnDate(front, dateOf, date) + [] == OnDate(front, dateOf, date);
    }
  }

  lemma WithinDayIsWithinSpan(shifts: seq<Shift>, dateOf: int -> int, date: int, t: int)
    requires AllValid(shifts)
    ensures WithinDay(shifts, dateOf, date, t) <==>
              var day := OnDate(shifts, dateOf, date); day != [] && Earliest(day) <= t < Latest(day)
  {
    var day := OnDate(shifts, dateOf, date);
    OnDateMembers(shifts, dateOf, date);
    assert WithinDay(shifts, dateOf, date, t) <==> exists a, b :: a in day && b in day && a.start <= t < b.end;
    if day != [] {
      SpanOf(day);
    }
  }

  /** The day check says that from the first start to the last end enough shifts of the date are at work. */
  lemma DateCoveredMeansStaffed(shifts: seq<Shift>, dateOf: int -> int, requiredOn: int -> int, date: int)
    requires AllValid(shifts)
    ensures DateCovered(shifts, dateOf, requiredOn, date) <==> DateStaffed(shifts, dateOf, requiredOn, date)
  {
    forall t ensures WithinDay(shifts, dateOf, date, t) <==>
                       var day := OnDate(shifts, dateOf, date); day != [] && Earliest(day) <= t < Latest(day) {
      WithinDayIsWithinSpan(shifts, dateOf, date, t);
    }
    forall t ensures CountAt(OnDate(shifts, dateOf, date), map[], None, t) == |AtWorkOn(shifts, dateOf, date, t)| {
      DayCountIsPositions(shifts, dateOf, date, t);
    }
  }

  lemma DayCanBeSwept(shifts: seq<Shift>, dateOf: int -> int, date: int)
    requires AllValid(shifts) && exists s :: s in shifts && dateOf(s.start) == date
    ensures var day := OnDate(shifts, dateOf, date);
            day != [] && AllValid(day) && Earliest(day) < Latest(day) && Complete(DayBoundaries(day), day, Earliest(day), Latest(day))
  {
    var day := OnDate(shifts, dateOf, date);
    OnDateMembers(shifts, dateOf, date);
    var s :| s in shifts && dateOf(s.start) == date;
    assert s in day;
    DayBoundariesComplete(day);
    SpanOf(day);
  }

  lemma {:induction false} OtherDatesAreEmpty(shifts: seq<Shift>, dateOf: int -> int, date: int)
    requires forall s :: s in shifts ==> dateOf(s.start) != date
    ensures OnDate(shifts, dateOf, date) == []
  {
    if shifts != [] {
      OtherDatesAreEmpty(shifts[..|shifts| - 1], dateOf, date);
    }
  }

  lemma DaysCoveredMeanStaffed(shifts: seq<Shift>, dateOf: int -> int, requiredOn: int -> int)
    requires AllValid(shifts)
    ensures (forall date :: DateCovered(shifts, dateOf, requiredOn, date))
            <==> forall date :: DateStaffed(shifts, dateOf, requiredOn, date)
  {
    forall date ensures DateCovered(shifts, dateOf, requiredOn, date) <==> DateStaffed(shifts, dateOf, requiredOn, date) {
      DateCoveredMeansStaffed(shifts, dateOf, requiredOn, date);
    }
  }

  /**
   `validate_solved_daily_coverage`: shifts are grouped by the local date they start on.
   `dateOf` and `requiredOn` stand for the time zone and the daily demand.
   */
  method ValidateDays(shifts: seq<Shift>, dateOf: int -> int, requiredOn: int -> int) returns (ok: bool)
    requires AllValid(shifts)
    ensures ok <==> forall date :: DateCovered(shifts, dateOf, requiredOn, date)
    ensures ok <==> forall date :: DateStaffed(shifts, dateOf, requiredOn, date)
  {
    DaysCoveredMeanStaffed(shifts, dateOf, requiredOn);
    var dates := set s | s in shifts :: dateOf(s.start);
    var left := dates;
    while left != {}
      invariant left <= dates
      invariant forall date :: date in dates - left ==> DateCovered(shifts, dateOf, requiredOn, date)
      decreases left
    {
      ghost var some := Member(left);
      assert some in left;
      var date :| date in left;
      var day := OnDate(shifts, dateOf, date);
      DayCanBeSwept(shifts, dateOf, date);
      var covered := SegmentsCovered(DayBoundaries(day), day, map[], None, Earliest(day), Latest(day), requiredOn(date));
      if !covered {
        assert !DateCovered(shifts, dateOf, requiredOn, date);
        return false;
      }
      left := left - {date};
    }
    forall date ensures DateCovered(shifts, dateOf, requiredOn, date) {
      if date !in dates {
        OtherDatesAreEmpty(shifts, dateOf, date);
      }
    }
    return true;
  }

  /** Windows when there are any, otherwise whole days. */
  method ValidateDemand(windows: seq<Window>, shifts: seq<Shift>, skills: Skills, dateOf: int -> int, requiredOn: int -> int)
    returns (ok: bool)
    requires AllValid(shifts) && forall w :: w in windows ==> w.start < w.end
    ensures ok <==>
      if windows == [] then forall date :: DateStaffed(shifts, dateOf, requiredOn, date)
      else forall w :: w in windows ==> CoveredThroughout(shifts, skills, w.skill, w.start, w.end, w.required)
  {
    if |windows| == 0 {
      ok := ValidateDays(shifts, dateOf, requiredOn);
    } else {
      ok := ValidateWindows(windows, shifts, skills);
    }
  }

  // ---- counting people ----

  /** The people whose shift is under way at the instant, who are not on a break, and who have the skill if one is named. */
  ghost function PeopleAt(shifts: seq<Shift>, skills: Skills, skill: Option<string>, t: int): set<string> {
    set s | s in shifts && s.start <= t < s.end && (forall b <- s.breaks :: !(b.start <= t < b.end))
            && (skill.Some? ==> s.staff in skills && skill.value in skills[s.staff]) :: s.staff
  }

  lemma PeopleWithLast(front: seq<Shift>, last: Shift, skills: Skills, skill: Option<string>, t: int)
    ensures PeopleAt(front + [last], skills, skill, t)
            == PeopleAt(front, skills, skill, t)
               + if WorkingAt(last, t) && Qualified(skills, skill, last) then {last.staff} else {}
  {
    assert forall s :: s in front + [last] <==> s in front || s == last;
  }

  lemma LastIsSomeoneElse(front: seq<Shift>, last: Shift, skills: Skills, skill: Option<string>, t: int)
    requires !HasOverlap(front + [last]) && WorkingAt(last, t)
    ensures !HasOverlap(front) && last.staff !in PeopleAt(front, skills, skill, t)
  {
    var all := front + [last];
    forall i, j | 0 <= i < j < |front| ensures !Overlap(front[i], front[j]) {
      assert !Overlap(all[i], all[j]);
    }
    forall s | s in front && WorkingAt(s, t) ensures s.staff != last.staff {
      var i :| 0 <= i < |front| && front[i] == s;
      assert !Overlap(all[i], all[|front|]);
    }
  }

  /** On coalesced input nobody is counted twice. */
  lemma {:induction false} CountsArePeople(shifts: seq<Shift>, skills: Skills, skill: Option<string>, t: int)
    requires !HasOverlap(shifts)
    ensures CountAt(shifts, skills, skill, t) == |PeopleAt(shifts, skills, skill, t)|
  {
    if shifts != [] {
      var n := |shifts| - 1;
      assert shifts == shifts[..n] + [shifts[n]];
      forall i, j | 0 <= i < j < n ensures !Overlap(shifts[..n][i], shifts[..n][j]) {
        assert !Overlap(shifts[i], shifts[j]);
      }
      CountsArePeople(shifts[..n], skills, skill, t);
      PeopleWithLast(shifts[..n], shifts[n], skills, skill, t);
      if WorkingAt(shifts[n], t) {
        LastIsSomeoneElse(shifts[..n], shifts[n], skills, skill, t);
      }
    }
  }

  /**
   A coalesced solution passes a window's check exactly when, at every instant of the window, enough different
   people are at work, and enough of them with the skill.
   */
  lemma AcceptedMeansEnoughPeople(scope: Scope, solved: seq<Shift>, skills: Skills, w: Window)
    requires AllValid(solved) && Coalesced(scope, solved).Some?
    ensures var shifts := Coalesced(scope, solved).value;
            CoveredThroughout(shifts, skills, w.skill, w.start, w.end, w.required) <==>
              forall t :: w.start <= t < w.end ==>
                && |PeopleAt(shifts, skills, None, t)| >= w.required
                && |PeopleAt(shifts, skills, w.skill, t)| >= w.required
  {
    CoalescingKeepsMeaning(scope, solved);
    CountsAreAlwaysPeople(Coalesced(scope, solved).value, skills, None);
    CountsAreAlwaysPeople(Coalesced(scope, solved).value, skills, w.skill);
  }

  lemma CountsAreAlwaysPeople(shifts: seq<Shift>, skills: Skills, skill: Option<string>)
    requires !HasOverlap(shifts)
    ensures forall t :: CountAt(shifts, skills, skill, t) == |PeopleAt(shifts, skills, skill, t)|
  {
    forall t ensures CountAt(shifts, skills, skill, t) == |PeopleAt(shifts, skills, skill, t)| {
      CountsArePeople(shifts, skills, skill, t);
    }
  }

  // ---- the same for whole days ----

  /** The people whose shift of that date is under way at the instant, and who are not on a break. */
  ghost function PeopleOn(shifts: seq<Shift>, dateOf: int -> int, date: int, t: int): set<string> {
    set s | s in shifts && dateOf(s.start) == date && s.start <= t < s.end
            && (forall b <- s.breaks :: !(b.start <= t < b.end)) :: s.staff
  }

  lemma PeopleOnWithLast(front: seq<Shift>, last: Shift, dateOf: int -> int, date: int, t: int)
    ensures PeopleOn(front + [last], dateOf, date, t)
            == PeopleOn(front, dateOf, date, t) + if dateOf(last.start) == date && WorkingAt(last, t) then {last.staff} else {}
    ensures PeopleOn(front, dateOf, date, t) <= PeopleAt(front, map[], None, t)
  {
    assert forall s :: s in front + [last] <==> s in front || s == last;
  }

  lemma {:induction false} PositionsArePeople(shifts: seq<Shift>, dateOf: int -> int, date: int, t: int)
    requires !HasOverlap(shifts)
    ensures |AtWorkOn(shifts, dateOf, date, t)| == |PeopleOn(shifts, dateOf, date, t)|
  {
    if shifts != [] {
      var n := |shifts| - 1;
      var front, last := shifts[..n], shifts[n];
      assert shifts == front + [last];
      FrontHasNoOverlap(front, last);
      PositionsArePeople(front, dateOf, date, t);
      AtWorkWithLast(front, last, dateOf, date, t);
      PeopleOnWithLast(front, last, dateOf, date, t);
      if WorkingAt(last, t) {
        LastIsSomeoneElse(front, last, map[], None, t);
      }
    }
  }

  lemma FrontHasNoOverlap(front: seq<Shift>, last: Shift)
    requires !HasOverlap(front + [last])
    ensures !HasOverlap(front)
  {
    forall i, j | 0 <= i < j < |front| ensures !Overlap(front[i], front[j]) {
      assert !Overlap((front + [last])[i], (front + [last])[j]);
    }
  }

  lemma DateStaffedMeansPeople(shifts: seq<Shift>, dateOf: int -> int, requiredOn: int -> int, date: int)
    requires AllValid(shifts) && !HasOverlap(shifts)
    ensures DateCovered(shifts, dateOf, requiredOn, date) <==>
            forall t :: WithinDay(shifts, dateOf, date, t) ==> |PeopleOn(shifts, dateOf, date, t)| >= requiredOn(date)
  {
    DateCoveredMeansStaffed(shifts, dateOf, requiredOn, date);
    forall t ensures |AtWorkOn(shifts, dateOf, date, t)| == |PeopleOn(shifts, dateOf, date, t)| {
      PositionsArePeople(shifts, dateOf, date, t);
    }
  }

  /**
   Where nobody overlaps with themselves, the day check accepts exactly the solutions with enough different
   people: at every instant between a start and an end of the date's shifts, `requiredOn` of them.
   */
  lemma AcceptedDaysMeanEnoughPeople(shifts: seq<Shift>, dateOf: int -> int, requiredOn: int -> int)
    requires AllValid(shifts) && !HasOverlap(shifts)
    ensures (forall date :: DateCovered(shifts, dateOf, requiredOn, date)) <==>
            forall date, t :: WithinDay(shifts, dateOf, date, t) ==> |PeopleOn(shifts, dateOf, date, t)| >= requiredOn(date)
  {
    forall date
      ensures DateCovered(shifts, dateOf, requiredOn, date) <==>
              forall t :: WithinDay(shifts, dateOf, date, t) ==> |PeopleOn(shifts, dateOf, date, t)| >= requiredOn(date)
    {
      DateStaffedMeansPeople(shifts, dateOf, requiredOn, date);
    }
  }
}
