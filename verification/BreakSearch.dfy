/**
 Moving one person's breaks away from the breaks of others: the search for the nearest
 free quarter-hour. All times are exact minutes.
 */
module BreakSearch {
  const QUARTER: real := 15.0
  const HOUR: real := 60.0

  predicate BreaksOverlap(start1: real, end1: real, start2: real, end2: real) {
    start1 < end2 && start2 < end1
  }

  datatype Times = Times(break1: real, lunch: real, break2: real, lunchDuration: real)
  datatype Durations = Durations(break1: real, break2: real)

  /** Whether someone's break of any kind overlaps the interval. */
  predicate Clashes(other: Times, d: Durations, s: real, e: real) {
    || BreaksOverlap(s, e, other.break1, other.break1 + d.break1)
    || BreaksOverlap(s, e, other.lunch, other.lunch + other.lunchDuration)
    || BreaksOverlap(s, e, other.break2, other.break2 + d.break2)
  }

  /** The number of people with a break in the interval. */
  function Clashing(others: seq<Times>, d: Durations, s: real, e: real): nat {
    if others == [] then 0
    else
      var n := |others| - 1;
      Clashing(others[..n], d, s, e) + if Clashes(others[n], d, s, e) then 1 else 0
  }

  method HasConflict(others: seq<Times>, d: Durations, s: real, e: real) returns (count: nat)
    ensures count == Clashing(others, d, s, e)
  {
    count := 0;
    for i := 0 to |others|
      invariant count == Clashing(others[..i], d, s, e)
    {
      assert others[..i + 1][..i] == others[..i];
      if Clashes(others[i], d, s, e) {
        count := count + 1;
      }
    }
    assert others[..|others|] == others;
  }

  // ---- the nearest free quarter-hour ----

  /** What is fixed during one search. */
  datatype Search = Search(others: seq<Times>, durations: Durations, maxConcurrent: int,
                           ideal: real, duration: real, min: real, max: real)
  {
    function Clamped(): real {
      var low := if ideal < min then min else ideal;
      if low < max - duration then low else max - duration
    }

    function Offset(k: int): real { Clamped() + QUARTER * (k as real) }

    predicate Free(t: real) { Clashing(others, durations, t, t + duration) < maxConcurrent }

    predicate InWindow(t: real) { min <= t <= max - duration }

    /** The `k`th quarter-hour from the clamped ideal may be chosen. */
    predicate Open(k: int) { InWindow(Offset(k)) && Free(Offset(k)) }
  }

  function Size(k: int): nat { if k < 0 then -k else k }

  /** `j` is looked at before `k`: nearer, or as near but earlier. */
  predicate Sooner(j: int, k: int) { Size(j) < Size(k) || (Size(j) == Size(k) && j < k) }

  /** The answer that is wanted: the clamped ideal if free, else the nearest open quarter-hour, else the clamped ideal. */
  ghost predicate IsAnswer(q: Search, t: real) {
    if q.Free(q.Clamped()) then t == q.Clamped()
    else if exists k :: q.Open(k) then
      exists k :: q.Open(k) && t == q.Offset(k) && forall j :: Sooner(j, k) ==> !q.Open(j)
    else t == q.Clamped()
  }

  method FindNonConflict(q: Search) returns (t: real)
    ensures IsAnswer(q, t)
  {
    var clamped := q.Clamped();
    var count := HasConflict(q.others, q.durations, clamped, clamped + q.duration);
    assert q.Offset(0) == clamped;
    if count < q.maxConcurrent {
      return clamped;
    }
    var before, after := clamped - QUARTER, clamped + QUARTER;
    ghost var k := 1;
    while before >= q.min || after <= q.max - q.duration
      invariant k >= 1 && before == q.Offset(-k) && after == q.Offset(k)
      invariant NoneWithin(q, k)
      decreases Left(before - q.min) + Left(q.max - q.duration - after)
    {
      if before >= q.min {
        count := HasConflict(q.others, q.durations, before, before + q.duration);
        if count < q.maxConcurrent {
          FoundBefore(q, k);
          return before;
        }
      }
      assert !q.Open(-k);
      if after <= q.max - q.duration {
        count := HasConflict(q.others, q.durations, after, after + q.duration);
        if count < q.maxConcurrent {
          FoundAfter(q, k);
          return after;
        }
      }
      assert !q.Open(k);
      before := before - QUARTER;
      after := after + QUARTER;
      k := k + 1;
      assert forall j :: Size(j) < k ==> j == k - 1 || j == 1 - k || Size(j) < k - 1;
    }
    NothingBeyond(q, k);
    return clamped;
  }

  function Left(x: real): nat { if x < 0.0 then 0 else x.Floor + 1 }

  /** Neither the clamped ideal nor any quarter-hour nearer than `k` will do. */
  ghost predicate NoneWithin(q: Search, k: int) {
    !q.Free(q.Clamped()) && forall j :: Size(j) < k ==> !q.Open(j)
  }

  lemma FoundBefore(q: Search, k: int)
    requires k >= 1 && NoneWithin(q, k) && q.Offset(-k) >= q.min && q.Free(q.Offset(-k))
    ensures IsAnswer(q, q.Offset(-k))
  {
    assert q.Open(-k);
    assert forall j :: Sooner(j, -k) ==> Size(j) < k;
  }

  lemma FoundAfter(q: Search, k: int)
    requires k >= 1 && NoneWithin(q, k) && !q.Open(-k) && q.Offset(k) <= q.max - q.duration && q.Free(q.Offset(k))
    ensures IsAnswer(q, q.Offset(k))
  {
    assert q.Open(k);
    assert forall j :: Sooner(j, k) ==> j == -k || Size(j) < k;
  }

  lemma NothingBeyond(q: Search, k: int)
    requires k >= 1 && NoneWithin(q, k) && q.Offset(-k) < q.min && q.Offset(k) > q.max - q.duration
    ensures IsAnswer(q, q.Clamped())
  {
    forall j ensures !q.Open(j) {
      assert j >= k ==> q.Offset(j) >= q.Offset(k);
      assert j <= -k ==> q.Offset(j) <= q.Offset(-k);
    }
  }

  // ---- what the answer means ----

  /** The answer stays in a window that can hold it, and clashes only when nothing in reach is free. */
  lemma AnswerIsGood(q: Search, t: real)
    requires IsAnswer(q, t)
    ensures q.min <= q.max - q.duration ==> q.InWindow(t)
    ensures q.Free(t) <==> q.Free(q.Clamped()) || exists k :: q.Open(k)
    ensures q.min > q.max - q.duration ==> t == q.max - q.duration
  {
  }

  function Distance(a: real, b: real): real { if a < b then b - a else a - b }

  /** The answer is unique and no open quarter-hour is nearer to the clamped ideal. */
  lemma AnswerIsNearest(q: Search, t: real, u: real)
    requires IsAnswer(q, t) && IsAnswer(q, u)
    ensures t == u
    ensures forall k :: q.Open(k) ==> Distance(t, q.Clamped()) <= Distance(q.Offset(k), q.Clamped())
    ensures forall k :: q.Open(k) && Distance(t, q.Clamped()) == Distance(q.Offset(k), q.Clamped()) ==> t <= q.Offset(k)
  {
    forall k ensures Distance(q.Offset(k), q.Clamped()) == QUARTER * (Size(k) as real) {
    }
    if !q.Free(q.Clamped()) && exists k :: q.Open(k) {
      var a :| q.Open(a) && t == q.Offset(a) && forall j :: Sooner(j, a) ==> !q.Open(j);
      var b :| q.Open(b) && u == q.Offset(b) && forall j :: Sooner(j, b) ==> !q.Open(j);
      assert !Sooner(a, b) && !Sooner(b, a);
      forall k | q.Open(k) ensures !Sooner(k, a) {
      }
    }
  }

  // ---- one person's three breaks ----

  datatype Shift = Shift(start: real, end: real)
  {
    function Duration(): real { if end > start then end - start else end + 24.0 * HOUR - start }
  }

  function Break1Search(s: Shift, wanted: Times, others: seq<Times>, d: Durations, max: int): Search {
    Search(others, d, max, wanted.break1, d.break1, s.start + HOUR, s.start + s.Duration() / 3.0)
  }

  function LunchSearch(s: Shift, wanted: Times, others: seq<Times>, d: Durations, max: int): Search {
    Search(others, d, max, wanted.lunch, wanted.lunchDuration, s.start + s.Duration() / 3.0, s.start + 2.0 * s.Duration() / 3.0)
  }

  function Break2Search(s: Shift, wanted: Times, others: seq<Times>, d: Durations, max: int): Search {
    Search(others, d, max, wanted.break2, d.break2, s.start + 2.0 * s.Duration() / 3.0, s.end - HOUR)
  }

  method AvoidBreakConflicts(s: Shift, wanted: Times, others: seq<Times>, d: Durations, max: int) returns (t: Times)
    ensures IsAnswer(Break1Search(s, wanted, others, d, max), t.break1)
    ensures IsAnswer(LunchSearch(s, wanted, others, d, max), t.lunch)
    ensures IsAnswer(Break2Search(s, wanted, others, d, max), t.break2)
    ensures t.lunchDuration == wanted.lunchDuration
  {
    t := wanted;
    var break1 := FindNonConflict(Break1Search(s, wanted, others, d, max));
    var lunch := FindNonConflict(LunchSearch(s, wanted, others, d, max));
    var break2 := FindNonConflict(Break2Search(s, wanted, others, d, max));
    t := Times(break1, lunch, break2, wanted.lunchDuration);
  }

  /** On a long enough day shift the three breaks follow one another inside the shift, whatever the others do. */
  lemma BreaksKeepTheirThirds(s: Shift, wanted: Times, others: seq<Times>, d: Durations, max: int, t: Times)
    requires s.start < s.end && 0.0 <= d.break1 && 0.0 <= wanted.lunchDuration && 0.0 <= d.break2
    requires HOUR + d.break1 <= s.Duration() / 3.0 && wanted.lunchDuration <= s.Duration() / 3.0 && HOUR + d.break2 <= s.Duration() / 3.0
    requires IsAnswer(Break1Search(s, wanted, others, d, max), t.break1)
    requires IsAnswer(LunchSearch(s, wanted, others, d, max), t.lunch)
    requires IsAnswer(Break2Search(s, wanted, others, d, max), t.break2)
    ensures s.start + HOUR <= t.break1 && t.break1 + d.break1 <= t.lunch
    ensures t.lunch + wanted.lunchDuration <= t.break2 && t.break2 + d.break2 <= s.end - HOUR
  {
    AnswerIsGood(Break1Search(s, wanted, others, d, max), t.break1);
    AnswerIsGood(LunchSearch(s, wanted, others, d, max), t.lunch);
    AnswerIsGood(Break2Search(s, wanted, others, d, max), t.break2);
  }

  /** On a shift across midnight the second break ends an hour before the shift's end, whatever is wanted and whoever is away. */
  lemma OvernightSecondBreakIsFixed(s: Shift, wanted: Times, others: seq<Times>, d: Durations, max: int, t: real)
    requires s.end <= s.start && 0.0 <= d.break2
    requires IsAnswer(Break2Search(s, wanted, others, d, max), t)
    ensures t + d.break2 == s.end - HOUR
  {
    AnswerIsGood(Break2Search(s, wanted, others, d, max), t);
  }

  // ---- who is away ----

  /** Two breaks overlap exactly when they share an instant. */
  lemma OverlapMeansShared(start1: real, end1: real, start2: real, end2: real)
    requires start1 < end1 && start2 < end2
    ensures BreaksOverlap(start1, end1, start2, end2) <==> exists x: real :: Shared(start1, end1, start2, end2, x)
  {
    if BreaksOverlap(start1, end1, start2, end2) {
      assert Shared(start1, end1, start2, end2, if start1 < start2 then start2 else start1);
    }
  }

  predicate Shared(start1: real, end1: real, start2: real, end2: real, x: real) {
    start1 <= x < end1 && start2 <= x < end2
  }

  /** Who has a break of any kind that overlaps the interval. */
  ghost function Away(others: seq<Times>, d: Durations, s: real, e: real): set<nat> {
    set i: nat | i < |others|
                 && ((s < others[i].break1 + d.break1 && others[i].break1 < e)
                     || (s < others[i].lunch + others[i].lunchDuration && others[i].lunch < e)
                     || (s < others[i].break2 + d.break2 && others[i].break2 < e))
  }

  lemma {:induction false} ClashingCountsPeople(others: seq<Times>, d: Durations, s: real, e: real)
    ensures Clashing(others, d, s, e) == |Away(others, d, s, e)|
  {
    if others != [] {
      var n := |others| - 1;
      ClashingCountsPeople(others[..n], d, s, e);
      assert Away(others, d, s, e) == Away(others[..n], d, s, e) + if Clashes(others[n], d, s, e) then {n} else {};
    }
  }

  /** A wish that lies in its window, and at which few enough are away, is granted. */
  ghost predicate Granted(others: seq<Times>, d: Durations, max: int, wish: real, duration: real, from: real, to: real, t: real) {
    (from <= wish && wish + duration <= to && |Away(others, d, wish, wish + duration)| < max) ==> t == wish
  }

  lemma AnswerGrants(q: Search, t: real)
    requires IsAnswer(q, t)
    ensures Granted(q.others, q.durations, q.maxConcurrent, q.ideal, q.duration, q.min, q.max, t)
  {
    ClashingCountsPeople(q.others, q.durations, q.ideal, q.ideal + q.duration);
  }

  /** A shift that does not end later than it starts ends the next day. */
  lemma LengthInMinutes(s: Shift)
    ensures s.Duration() == if s.start < s.end then s.end - s.start else s.end - s.start + 1440.0
  {
  }

  /** The first break stays at its wish if that lies in the first third of the shift, an hour in, and few enough are away. */
  lemma Break1WishIsGranted(s: Shift, wanted: Times, others: seq<Times>, d: Durations, max: int, t: real)
    requires IsAnswer(Break1Search(s, wanted, others, d, max), t)
    ensures Granted(others, d, max, wanted.break1, d.break1, s.start + 60.0, s.start + s.Duration() / 3.0, t)
  {
    AnswerGrants(Break1Search(s, wanted, others, d, max), t);
  }

  /** The lunch stays at its wish if that lies in the second third. */
  lemma LunchWishIsGranted(s: Shift, wanted: Times, others: seq<Times>, d: Durations, max: int, t: real)
    requires IsAnswer(LunchSearch(s, wanted, others, d, max), t)
    ensures Granted(others, d, max, wanted.lunch, wanted.lunchDuration, s.start + s.Duration() / 3.0,
                    s.start + 2.0 * s.Duration() / 3.0, t)
  {
    AnswerGrants(LunchSearch(s, wanted, others, d, max), t);
  }

  /** The second break stays at its wish if that lies in the last third, up to an hour before the end. */
  lemma Break2WishIsGranted(s: Shift, wanted: Times, others: seq<Times>, d: Durations, max: int, t: real)
    requires IsAnswer(Break2Search(s, wanted, others, d, max), t)
    ensures Granted(others, d, max, wanted.break2, d.break2, s.start + 2.0 * s.Duration() / 3.0, s.end - 60.0, t)
  {
    AnswerGrants(Break2Search(s, wanted, others, d, max), t);
  }
}
