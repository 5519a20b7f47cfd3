/**
 Joining the solver's adjacent segments: touching shifts of one person in one
 role become one shift with all their breaks, and overlaps are refused.
 */
module Coalesce {
  import opened Results
  import opened Shifts
  import opened Ordering

  // ---- the algorithm ----

  function InsertBreak(x: Break, s: seq<Break>): seq<Break> {
    if s == [] then [x]
    else if x.start < s[0].start || (x.start == s[0].start && x.end <= s[0].end) then [x] + s
    else [s[0]] + InsertBreak(x, s[1..])
  }

  function SortBreaks(s: seq<Break>): seq<Break> {
    if s == [] then [] else InsertBreak(s[0], SortBreaks(s[1..]))
  }

  /** The same breaks under fresh ids, numbered from `index` within the merged shift. */
  function Renumber(shift: Id, breaks: seq<Break>, index: nat): (r: seq<Break>)
    ensures |r| == |breaks|
    ensures forall k :: 0 <= k < |r| ==>
              r[k] == breaks[k].(id := BreakId(shift, index + k, breaks[k].start, breaks[k].end, breaks[k].kind))
  {
    if breaks == [] then []
    else
      var b := breaks[0];
      [b.(id := BreakId(shift, index, b.start, b.end, b.kind))] + Renumber(shift, breaks[1..], index + 1)
  }

  function Join(scope: Scope, previous: Shift, next: Shift): Shift {
    var id := ShiftId(scope, next.staff, previous.start, next.end, next.role);
    Shift(id, next.staff, previous.start, next.end, next.role, Renumber(id, SortBreaks(previous.breaks + next.breaks), 0))
  }

  predicate Touches(previous: Shift, next: Shift) {
    next.start == previous.end && next.role == previous.role
  }

  function Extend(scope: Scope, done: seq<Shift>, next: Shift): Option<seq<Shift>> {
    if done == [] || done[|done| - 1].staff != next.staff then Some(done + [next])
    else
      var previous := done[|done| - 1];
      if next.start < previous.end then None
      else if Touches(previous, next) then Some(done[..|done| - 1] + [Join(scope, previous, next)])
      else Some(done + [next])
  }

  function Fold(scope: Scope, ordered: seq<Shift>): Option<seq<Shift>> {
    if ordered == [] then Some([])
    else
      var n := |ordered| - 1;
      match Fold(scope, ordered[..n])
      case None => None
      case Some(done) => Extend(scope, done, ordered[n])
  }

  function Coalesced(scope: Scope, solved: seq<Shift>): Option<seq<Shift>> {
    Fold(scope, SortShifts(solved))
  }

  /** The worker's loop: `None` stands for the overlap error. */
  method CoalesceAdjacent(scope: Scope, solved: seq<Shift>) returns (result: Option<seq<Shift>>)
    ensures result == Coalesced(scope, solved)
  {
    var ordered := SortShifts(solved);
    var coalesced: seq<Shift> := [];
    var i := 0;
    while i < |ordered|
      invariant 0 <= i <= |ordered|
      invariant Fold(scope, ordered[..i]) == Some(coalesced)
    {
      var shift := ordered[i];
      FoldTakesNext(scope, ordered, i);
      if coalesced != [] && coalesced[|coalesced| - 1].staff == shift.staff {
        var previous := coalesced[|coalesced| - 1];
        if shift.start < previous.end {
          FoldFailsEarly(scope, ordered, i + 1);
          return None;
        }
        if shift.start == previous.end && shift.role == previous.role {
          coalesced := coalesced[..|coalesced| - 1] + [Join(scope, previous, shift)];
        } else {
          coalesced := coalesced + [shift];
        }
      } else {
        coalesced := coalesced + [shift];
      }
      i := i + 1;
    }
    assert ordered[..i] == ordered;
    return Some(coalesced);
  }

  lemma FoldTakesNext(scope: Scope, ordered: seq<Shift>, i: nat)
    requires i < |ordered| && Fold(scope, ordered[..i]).Some?
    ensures Fold(scope, ordered[..i + 1]) == Extend(scope, Fold(scope, ordered[..i]).value, ordered[i])
  {
    assert ordered[..i + 1][..i] == ordered[..i];
  }

  lemma {:induction false} FoldFailsEarly(scope: Scope, ordered: seq<Shift>, i: nat)
    requires i <= |ordered| && Fold(scope, ordered[..i]).None?
    ensures Fold(scope, ordered).None?
  {
    if i < |ordered| {
      var n := |ordered| - 1;
      assert ordered[..n][..i] == ordered[..i];
      FoldFailsEarly(scope, ordered[..n], i);
    } else {
      assert ordered[..i] == ordered;
    }
  }

  // ---- what shifts mean ----

  ghost predicate ValidBreaks(s: Shift) {
    && (forall k :: 0 <= k < |s.breaks| ==> s.start <= s.breaks[k].start < s.breaks[k].end <= s.end)
    && (forall k, l :: 0 <= k < l < |s.breaks| ==> s.breaks[k].end <= s.breaks[l].start)
  }

  /** What normalisation has already checked of each solved shift. */
  ghost predicate ValidShift(s: Shift) {
    s.start < s.end && ValidBreaks(s)
  }

  ghost predicate AllValid(shifts: seq<Shift>) {
    forall s :: s in shifts ==> ValidShift(s)
  }

  predicate Works(s: Shift, staff: string, role: string, t: int) {
    s.staff == staff && s.role == role && s.start <= t < s.end
  }

  predicate Covers(b: Break, kind: string, paid: bool, t: int) {
    b.kind == kind && b.paid == paid && b.start <= t < b.end
  }

  ghost predicate Rests(s: Shift, staff: string, role: string, kind: string, paid: bool, t: int) {
    s.staff == staff && s.role == role && exists k :: 0 <= k < |s.breaks| && Covers(s.breaks[k], kind, paid, t)
  }

  ghost predicate OnDuty(shifts: seq<Shift>, staff: string, role: string, t: int) {
    exists s :: s in shifts && Works(s, staff, role, t)
  }

  ghost predicate OnBreak(shifts: seq<Shift>, staff: string, role: string, kind: string, paid: bool, t: int) {
    exists s :: s in shifts && Rests(s, staff, role, kind, paid, t)
  }

  ghost predicate SameMeaning(a: seq<Shift>, b: seq<Shift>) {
    && (forall staff, role, t :: OnDuty(a, staff, role, t) <==> OnDuty(b, staff, role, t))
    && (forall staff, role, kind, paid, t :: OnBreak(a, staff, role, kind, paid, t) <==> OnBreak(b, staff, role, kind, paid, t))
  }

  ghost predicate Overlap(a: Shift, b: Shift) {
    a.staff == b.staff && a.start < b.end && b.start < a.end
  }

  /** Two different positions hold overlapping shifts of one person. */
  ghost predicate HasOverlap(shifts: seq<Shift>) {
    exists i, j :: 0 <= i < j < |shifts| && Overlap(shifts[i], shifts[j])
  }

  // ---- joining two shifts ----

  lemma {:induction false} ChainIsSorted(s: seq<Break>)
    requires forall k :: 0 <= k < |s| ==> s[k].start < s[k].end
    requires forall k, l :: 0 <= k < l < |s| ==> s[k].end <= s[l].start
    ensures SortBreaks(s) == s
  {
    if s != [] {
      ChainIsSorted(s[1..]);
      assert s == [s[0]] + s[1..];
    }
  }

  /** Joining touching shifts keeps a valid shift with exactly both sets of breaks, in order. */
  lemma JoinIsValid(scope: Scope, previous: Shift, next: Shift)
    requires ValidShift(previous) && ValidShift(next) && previous.staff == next.staff && Touches(previous, next)
    ensures ValidShift(Join(scope, previous, next))
    ensures |Join(scope, previous, next).breaks| == |previous.breaks| + |next.breaks|
    ensures forall k :: 0 <= k < |previous.breaks| + |next.breaks| ==>
              var b := Join(scope, previous, next).breaks[k];
              var a := (previous.breaks + next.breaks)[k];
              b.start == a.start && b.end == a.end && b.kind == a.kind && b.paid == a.paid
  {
    var both := previous.breaks + next.breaks;
    forall k, l | 0 <= k < l < |both| ensures both[k].end <= both[l].start {
      if k < |previous.breaks| <= l {
        assert both[k].end <= previous.end <= both[l].start;
      }
    }
    ChainIsSorted(both);
  }

  lemma JoinMeans(scope: Scope, previous: Shift, next: Shift, staff: string, role: string, t: int)
    requires ValidShift(previous) && ValidShift(next) && previous.staff == next.staff && Touches(previous, next)
    ensures Works(Join(scope, previous, next), staff, role, t) <==> Works(previous, staff, role, t) || Works(next, staff, role, t)
  {
  }

  /** The joined shift carries the breaks of both parts, in order and unchanged but for ids. */
  ghost predicate CarriesBoth(joined: Shift, previous: Shift, next: Shift) {
    && joined.staff == previous.staff == next.staff && joined.role == previous.role == next.role
    && |joined.breaks| == |previous.breaks| + |next.breaks|
    && (forall k :: 0 <= k < |previous.breaks| ==> SameTimes(joined.breaks[k], previous.breaks[k]))
    && (forall k :: 0 <= k < |next.breaks| ==> SameTimes(joined.breaks[|previous.breaks| + k], next.breaks[k]))
  }

  predicate SameTimes(a: Break, b: Break) {
    a.start == b.start && a.end == b.end && a.kind == b.kind && a.paid == b.paid
  }

  lemma JoinCarriesBoth(scope: Scope, previous: Shift, next: Shift)
    requires ValidShift(previous) && ValidShift(next) && previous.staff == next.staff && Touches(previous, next)
    ensures CarriesBoth(Join(scope, previous, next), previous, next)
  {
    JoinCarriesFirst(scope, previous, next);
    JoinCarriesSecond(scope, previous, next);
  }

  lemma JoinCarriesFirst(scope: Scope, previous: Shift, next: Shift)
    requires ValidShift(previous) && ValidShift(next) && previous.staff == next.staff && Touches(previous, next)
    ensures var joined := Join(scope, previous, next);
            && |joined.breaks| == |previous.breaks| + |next.breaks|
            && forall k :: 0 <= k < |previous.breaks| ==> SameTimes(joined.breaks[k], previous.breaks[k])
  {
    JoinIsValid(scope, previous, next);
    var both := previous.breaks + next.breaks;
    assert forall k :: 0 <= k < |previous.breaks| ==> both[k] == previous.breaks[k];
  }

  lemma JoinCarriesSecond(scope: Scope, previous: Shift, next: Shift)
    requires ValidShift(previous) && ValidShift(next) && previous.staff == next.staff && Touches(previous, next)
    ensures var joined := Join(scope, previous, next);
            && |joined.breaks| == |previous.breaks| + |next.breaks|
            && forall k :: 0 <= k < |next.breaks| ==> SameTimes(joined.breaks[|previous.breaks| + k], next.breaks[k])
  {
    JoinIsValid(scope, previous, next);
    var both := previous.breaks + next.breaks;
    var joined := Join(scope, previous, next);
    forall k | 0 <= k < |next.breaks| ensures SameTimes(joined.breaks[|previous.breaks| + k], next.breaks[k]) {
      assert both[|previous.breaks| + k] == next.breaks[k];
    }
  }

  lemma CarriersRest(joined: Shift, previous: Shift, next: Shift, staff: string, role: string, kind: string, paid: bool, t: int)
    requires CarriesBoth(joined, previous, next)
    ensures Rests(joined, staff, role, kind, paid, t)
            <==> Rests(previous, staff, role, kind, paid, t) || Rests(next, staff, role, kind, paid, t)
  {
    var n := |previous.breaks|;
    if Rests(joined, staff, role, kind, paid, t) {
      var k :| 0 <= k < |joined.breaks| && Covers(joined.breaks[k], kind, paid, t);
      if k < n {
        assert Covers(previous.breaks[k], kind, paid, t);
      } else {
        assert SameTimes(joined.breaks[n + (k - n)], next.breaks[k - n]);
        assert Covers(next.breaks[k - n], kind, paid, t);
      }
    }
    if Rests(previous, staff, role, kind, paid, t) {
      var k :| 0 <= k < n && Covers(previous.breaks[k], kind, paid, t);
      assert Covers(joined.breaks[k], kind, paid, t);
    }
    if Rests(next, staff, role, kind, paid, t) {
      var k :| 0 <= k < |next.breaks| && Covers(next.breaks[k], kind, paid, t);
      assert Covers(joined.breaks[n + k], kind, paid, t);
    }
  }
}
