/**
 Checking the engine's answer: breaks inside their shift and apart, shifts of known
 staff inside the schedule window, no duplicates, coalescing, and no collision with
 shifts that already exist. `None` stands for a non-retryable rejection.
 */
module Normalize {
  import opened Results
  import opened Shifts
  import opened Ordering
  import opened Coalesce
  import opened CoalesceMeaning
  import opened Jobs
  import opened DraftCommit

  const DAY: int := 86_400_000_000

  datatype RawBreak = RawBreak(start: int, end: int, kind: string, paid: bool)
  datatype RawShift = RawShift(staff: string, start: int, end: int, role: string, breaks: seq<RawBreak>)
  datatype Existing = Existing(staff: string, start: int, end: int)

  datatype Request = Request(scope: Scope, start: int, end: int, staff: seq<string>, existing: seq<Existing>)

  // ---- breaks ----

  predicate InsideShift(b: RawBreak, start: int, end: int) {
    start <= b.start < b.end <= end
  }

  predicate Apart(a: RawBreak, b: RawBreak) {
    a.end <= b.start || b.end <= a.start
  }

  /** The acceptable break lists: every break inside the shift, and no two at once. */
  predicate BreaksAcceptable(raw: seq<RawBreak>, start: int, end: int) {
    && (forall k :: 0 <= k < |raw| ==> InsideShift(raw[k], start, end))
    && (forall k, l :: 0 <= k < l < |raw| ==> Apart(raw[k], raw[l]))
  }

  function Numbered(shift: Id, raw: seq<RawBreak>): (r: seq<Break>)
    ensures |r| == |raw|
    ensures forall k :: 0 <= k < |r| ==>
              r[k] == Break(BreakId(shift, k, raw[k].start, raw[k].end, raw[k].kind), raw[k].start, raw[k].end, raw[k].paid, raw[k].kind)
  {
    if raw == [] then []
    else
      var n := |raw| - 1;
      var b := raw[n];
      Numbered(shift, raw[..n]) + [Break(BreakId(shift, n, b.start, b.end, b.kind), b.start, b.end, b.paid, b.kind)]
  }

  method CollectBreaks(shift: Id, raw: seq<RawBreak>, start: int, end: int) returns (result: Option<seq<Break>>)
    ensures result.Some? ==> result.value == Numbered(shift, raw)
    ensures result.Some? ==> forall k :: 0 <= k < |raw| ==> InsideShift(raw[k], start, end)
    ensures result.None? ==> !BreaksAcceptable(raw, start, end)
  {
    var normalized: seq<Break> := [];
    var seen: set<(int, int, string)> := {};
    var i := 0;
    while i < |raw|
      invariant 0 <= i <= |raw|
      invariant forall k :: 0 <= k < i ==> InsideShift(raw[k], start, end)
      invariant forall key :: key in seen ==> exists k :: 0 <= k < i && key == (raw[k].start, raw[k].end, raw[k].kind)
      invariant normalized == Numbered(shift, raw[..i])
    {
      var b := raw[i];
      if !(start <= b.start < b.end <= end) {
        assert !InsideShift(raw[i], start, end);
        return None;
      }
      var key := (b.start, b.end, b.kind);
      if key in seen {
        ghost var k :| 0 <= k < i && key == (raw[k].start, raw[k].end, raw[k].kind);
        assert !Apart(raw[k], raw[i]);
        return None;
      }
      seen := seen + {key};
      assert raw[..i + 1][..i] == raw[..i];
      normalized := normalized + [Break(BreakId(shift, i, b.start, b.end, b.kind), b.start, b.end, b.paid, b.kind)];
      i := i + 1;
    }
    assert raw[..i] == raw;
    return Some(normalized);
  }

  /** The check of neighbours in start order, which settles the matter for all pairs. */
  method NeighboursApart(ordered: seq<Break>) returns (clash: Option<nat>)
    requires forall k :: 0 <= k < |ordered| ==> ordered[k].start < ordered[k].end
    ensures clash.Some? ==> 0 < clash.value < |ordered| && ordered[clash.value - 1].end > ordered[clash.value].start
    ensures clash.None? ==> forall k, l :: 0 <= k < l < |ordered| ==> ordered[k].end <= ordered[l].start
  {
    var j := 1;
    while j < |ordered|
      invariant 1 <= j
      invariant forall k, l :: 0 <= k < l < j && l < |ordered| ==> ordered[k].end <= ordered[l].start
    {
      if ordered[j - 1].end > ordered[j].start {
        return Some(j);
      }
      j := j + 1;
    }
    return None;
  }

  method NormalizeBreaks(shift: Id, raw: seq<RawBreak>, start: int, end: int) returns (result: Option<seq<Break>>)
    ensures result.Some? <==> BreaksAcceptable(raw, start, end)
    ensures result.Some? ==> result.value == SortBreaks(Numbered(shift, raw))
    ensures result.Some? ==> forall k, l :: 0 <= k < l < |result.value| ==> result.value[k].end <= result.value[l].start
  {
    var collected := CollectBreaks(shift, raw, start, end);
    if collected.None? {
      return None;
    }
    var ordered := SortBreaks(collected.value);
    SortBreaksSorts(collected.value);
    OrderedBreaksAreSound(shift, raw, start, end, ordered);
    var clash := NeighboursApart(ordered);
    if clash.Some? {
      ClashInOrderIsClash(shift, raw, start, end, ordered, clash.value);
      return None;
    }
    ApartInOrderIsApart(shift, raw, ordered);
    return Some(ordered);
  }

  predicate BreakLe(a: Break, b: Break) {
    a.start < b.start || (a.start == b.start && a.end <= b.end)
  }

  lemma {:induction false} InsertBreakSorts(x: Break, s: seq<Break>)
    requires forall k, l :: 0 <= k < l < |s| ==> BreakLe(s[k], s[l])
    ensures var r := InsertBreak(x, s);
            && multiset(r) == multiset{x} + multiset(s)
            && forall k, l :: 0 <= k < l < |r| ==> BreakLe(r[k], r[l])
  {
    if s != [] && !BreakLe(x, s[0]) {
      InsertBreakSorts(x, s[1..]);
      assert s == [s[0]] + s[1..];
      var rest := InsertBreak(x, s[1..]);
      forall k | 0 <= k < |rest| ensures BreakLe(s[0], rest[k]) {
        assert rest[k] in multiset(rest);
        assert rest[k] == x || rest[k] in s[1..];
      }
    }
  }

  lemma {:induction false} SortBreaksSorts(s: seq<Break>)
    ensures multiset(SortBreaks(s)) == multiset(s)
    ensures forall k, l :: 0 <= k < l < |SortBreaks(s)| ==> BreakLe(SortBreaks(s)[k], SortBreaks(s)[l])
  {
    if s != [] {
      SortBreaksSorts(s[1..]);
      InsertBreakSorts(s[0], SortBreaks(s[1..]));
      assert s == [s[0]] + s[1..];
    }
  }

  lemma OrderedBreaksAreSound(shift: Id, raw: seq<RawBreak>, start: int, end: int, ordered: seq<Break>)
    requires multiset(ordered) == multiset(Numbered(shift, raw))
    requires forall k :: 0 <= k < |raw| ==> InsideShift(raw[k], start, end)
    ensures forall k :: 0 <= k < |ordered| ==> start <= ordered[k].start < ordered[k].end <= end
  {
    var numbered := Numbered(shift, raw);
    forall k | 0 <= k < |ordered| ensures start <= ordered[k].start < ordered[k].end <= end {
      assert ordered[k] in multiset(numbered);
      var l :| 0 <= l < |numbered| && numbered[l] == ordered[k];
      assert InsideShift(raw[l], start, end);
    }
  }

  lemma ClashInOrderIsClash(shift: Id, raw: seq<RawBreak>, start: int, end: int, ordered: seq<Break>, j: nat)
    requires multiset(ordered) == multiset(Numbered(shift, raw)) && 0 < j < |ordered|
    requires forall k :: 0 <= k < |raw| ==> InsideShift(raw[k], start, end)
    requires ordered[j - 1].end > ordered[j].start && BreakLe(ordered[j - 1], ordered[j])
    ensures !BreaksAcceptable(raw, start, end)
  {
    var k, l := RawPositions(shift, raw, ordered, j - 1, j);
    assert InsideShift(raw[k], start, end) && InsideShift(raw[l], start, end);
    assert !Apart(raw[k], raw[l]) && !Apart(raw[l], raw[k]);
  }

  lemma RawPositions(shift: Id, raw: seq<RawBreak>, ordered: seq<Break>, i: nat, j: nat) returns (k: nat, l: nat)
    requires multiset(ordered) == multiset(Numbered(shift, raw)) && i < j < |ordered|
    ensures k < |raw| && l < |raw| && k != l
    ensures Numbered(shift, raw)[k] == ordered[i] && Numbered(shift, raw)[l] == ordered[j]
  {
    PairOfPositions(ordered, i, j);
    k, l := PositionsOfPair(Numbered(shift, raw), ordered[i], ordered[j]);
  }

  lemma ApartInOrderIsApart(shift: Id, raw: seq<RawBreak>, ordered: seq<Break>)
    requires multiset(ordered) == multiset(Numbered(shift, raw))
    requires forall k, l :: 0 <= k < l < |ordered| ==> ordered[k].end <= ordered[l].start
    ensures forall k, l :: 0 <= k < l < |raw| ==> Apart(raw[k], raw[l])
  {
    var numbered := Numbered(shift, raw);
    forall k, l | 0 <= k < l < |raw| ensures Apart(raw[k], raw[l]) {
      PairOfPositions(numbered, k, l);
      var i, j := PositionsOfPair(ordered, numbered[k], numbered[l]);
      if i < j {
        assert ordered[i].end <= ordered[j].start;
      } else {
        assert ordered[j].end <= ordered[i].start;
      }
    }
  }

  // ---- shifts ----

  ghost predicate ShiftAcceptable(req: Request, raw: RawShift) {
    && raw.staff in req.staff
    && raw.start < raw.end && raw.end - raw.start <= DAY
    && req.start <= raw.start < req.end
    && BreaksAcceptable(raw.breaks, raw.start, raw.end)
  }

  function NormalId(scope: Scope, raw: RawShift): Id {
    ShiftId(scope, raw.staff, raw.start, raw.end, raw.role)
  }

  function Normal(scope: Scope, raw: RawShift): Shift {
    var id := NormalId(scope, raw);
    Shift(id, raw.staff, raw.start, raw.end, raw.role, SortBreaks(Numbered(id, raw.breaks)))
  }

  function Normals(scope: Scope, raws: seq<RawShift>): (r: seq<Shift>)
    ensures |r| == |raws|
    ensures forall i :: 0 <= i < |r| ==> r[i] == Normal(scope, raws[i])
  {
    if raws == [] then [] else Normals(scope, raws[..|raws| - 1]) + [Normal(scope, raws[|raws| - 1])]
  }

  ghost predicate RawOverlap(a: RawShift, b: RawShift) {
    a.staff == b.staff && a.start < b.end && b.start < a.end
  }

  ghost predicate AllAcceptable(req: Request, raws: seq<RawShift>) {
    && (forall i :: 0 <= i < |raws| ==> ShiftAcceptable(req, raws[i]))
    && (forall i, j :: 0 <= i < j < |raws| ==> !RawOverlap(raws[i], raws[j]))
  }

  predicate Collides(shift: Shift, e: Existing) {
    e.staff == shift.staff && shift.start < e.end && shift.end > e.start
  }

  predicate FinalOk(req: Request, shift: Shift) {
    shift.end - shift.start <= DAY && forall e <- req.existing :: !Collides(shift, e)
  }

  lemma NormalIsValid(req: Request, raw: RawShift)
    requires ShiftAcceptable(req, raw)
    ensures ValidShift(Normal(req.scope, raw))
  {
    var id := NormalId(req.scope, raw);
    var ordered := SortBreaks(Numbered(id, raw.breaks));
    SortBreaksSorts(Numbered(id, raw.breaks));
    OrderedBreaksAreSound(id, raw.breaks, raw.start, raw.end, ordered);
    forall k, l | 0 <= k < l < |ordered| ensures ordered[k].end <= ordered[l].start {
      PairOfPositions(ordered, k, l);
      var m, n := PositionsOfPair(Numbered(id, raw.breaks), ordered[k], ordered[l]);
      assert Apart(raw.breaks[m], raw.breaks[n]) || Apart(raw.breaks[n], raw.breaks[m]);
      assert BreakLe(ordered[k], ordered[l]);
    }
  }

  lemma NormalsOverlapExactly(scope: Scope, raws: seq<RawShift>)
    ensures HasOverlap(Normals(scope, raws)) <==> exists i, j :: 0 <= i < j < |raws| && RawOverlap(raws[i], raws[j])
  {
    var normals := Normals(scope, raws);
    forall i, j | 0 <= i < j < |raws| ensures Overlap(normals[i], normals[j]) <==> RawOverlap(raws[i], raws[j]) {
    }
  }

  lemma NormalsAreValid(req: Request, raws: seq<RawShift>)
    requires forall i :: 0 <= i < |raws| ==> ShiftAcceptable(req, raws[i])
    ensures AllValid(Normals(req.scope, raws))
    ensures HasOverlap(Normals(req.scope, raws)) <==> exists i, j :: 0 <= i < j < |raws| && RawOverlap(raws[i], raws[j])
  {
    var normals := Normals(req.scope, raws);
    forall i | 0 <= i < |normals| ensures ValidShift(normals[i]) {
      NormalIsValid(req, raws[i]);
    }
    NormalsOverlapExactly(req.scope, raws);
  }

  function KeyOf(raw: RawShift): (string, int, int, string) { (raw.staff, raw.start, raw.end, raw.role) }

  ghost predicate EachAcceptable(req: Request, raws: seq<RawShift>) {
    raws == [] || (EachAcceptable(req, raws[..|raws| - 1]) && ShiftAcceptable(req, raws[|raws| - 1]))
  }

  function Keys(raws: seq<RawShift>): set<(string, int, int, string)> {
    if raws == [] then {} else Keys(raws[..|raws| - 1]) + {KeyOf(raws[|raws| - 1])}
  }

  lemma {:induction false} EachIsAcceptable(req: Request, raws: seq<RawShift>)
    requires EachAcceptable(req, raws)
    ensures forall i :: 0 <= i < |raws| ==> ShiftAcceptable(req, raws[i])
  {
    if raws != [] {
      EachIsAcceptable(req, raws[..|raws| - 1]);
    }
  }

  lemma {:induction false} KeysAreThere(raws: seq<RawShift>, key: (string, int, int, string))
    requires key in Keys(raws)
    ensures exists k :: 0 <= k < |raws| && KeyOf(raws[k]) == key
  {
    if key in Keys(raws[..|raws| - 1]) {
      KeysAreThere(raws[..|raws| - 1], key);
      var k :| 0 <= k < |raws| - 1 && KeyOf(raws[..|raws| - 1][k]) == key;
      assert KeyOf(raws[k]) == key;
    }
  }

  lemma SameKeysOverlap(req: Request, raws: seq<RawShift>, i: nat)
    requires i < |raws| && exists k :: 0 <= k < i && KeyOf(raws[..i][k]) == KeyOf(raws[i])
    requires ShiftAcceptable(req, raws[i])
    ensures !AllAcceptable(req, raws)
  {
    var k :| 0 <= k < i && KeyOf(raws[..i][k]) == KeyOf(raws[i]);
    assert RawOverlap(raws[k], raws[i]);
  }

  /** One shift of the solution, or `None` where the worker rejects it. */
  method NormalizeShift(req: Request, raw: RawShift) returns (shift: Option<Shift>)
    ensures shift.Some? <==> ShiftAcceptable(req, raw)
    ensures shift.Some? ==> shift.value == Normal(req.scope, raw)
  {
    if || raw.staff !in req.staff
       || raw.end <= raw.start
       || raw.start < req.start || raw.start >= req.end || raw.end - raw.start > DAY
    {
      return None;
    }
    var id := ShiftId(req.scope, raw.staff, raw.start, raw.end, raw.role);
    var breaks := NormalizeBreaks(id, raw.breaks, raw.start, raw.end);
    if breaks.None? {
      return None;
    }
    return Some(Shift(id, raw.staff, raw.start, raw.end, raw.role, breaks.value));
  }

  method CollectShifts(req: Request, raws: seq<RawShift>) returns (result: Option<seq<Shift>>)
    ensures result.Some? ==> result.value == Normals(req.scope, raws)
    ensures result.Some? ==> forall i :: 0 <= i < |raws| ==> ShiftAcceptable(req, raws[i])
    ensures result.None? ==> !AllAcceptable(req, raws)
  {
    var solved: seq<Shift> := [];
    var seen: set<(string, int, int, string)> := {};
    var i := 0;
    while i < |raws|
      invariant 0 <= i <= |raws|
      invariant EachAcceptable(req, raws[..i])
      invariant seen == Keys(raws[..i])
      invariant solved == Normals(req.scope, raws[..i])
    {
      var shift := NormalizeShift(req, raws[i]);
      if shift.None? {
        return None;
      }
      var key := KeyOf(raws[i]);
      if key in seen {
        KeysAreThere(raws[..i], key);
        SameKeysOverlap(req, raws, i);
        return None;
      }
      seen := seen + {key};
      assert raws[..i + 1] == raws[..i] + [raws[i]];
      solved := solved + [shift.value];
      i := i + 1;
    }
    assert raws[..i] == raws;
    EachIsAcceptable(req, raws);
    return Some(solved);
  }

  /** The whole check: acceptable shifts, coalesced, none too long and none colliding with an existing one. */
  method NormalizeShifts(req: Request, raws: seq<RawShift>) returns (result: Option<seq<Shift>>)
    ensures result.Some? <==>
              && raws != [] && AllAcceptable(req, raws)
              && Coalesced(req.scope, Normals(req.scope, raws)).Some?
              && forall s <- Coalesced(req.scope, Normals(req.scope, raws)).value :: FinalOk(req, s)
    ensures result.Some? ==> result == Coalesced(req.scope, Normals(req.scope, raws))
  {
    var solved := CollectShifts(req, raws);
    if solved.None? {
      return None;
    }
    if |solved.value| == 0 {
      return None;
    }
    NormalsAreValid(req, raws);
    FailsExactlyOnOverlap(req.scope, solved.value);
    var coalesced := CoalesceAdjacent(req.scope, solved.value);
    if coalesced.None? {
      return None;
    }
    var final := coalesced.value;
    var i := 0;
    while i < |final|
      invariant 0 <= i <= |final|
      invariant forall k :: 0 <= k < i ==> FinalOk(req, final[k])
    {
      if final[i].end - final[i].start > DAY || exists e <- req.existing :: Collides(final[i], e) {
        assert final[i] in final && !FinalOk(req, final[i]);
        return None;
      }
      i := i + 1;
    }
    return coalesced;
  }

  /** A coalesced shift collides with existing work exactly when one of the person's solved segments did. */
  lemma CollisionsAreThoseOfTheSegments(req: Request, raws: seq<RawShift>, e: Existing)
    requires AllAcceptable(req, raws) && e.start < e.end
    requires Coalesced(req.scope, Normals(req.scope, raws)).Some?
    ensures (exists s :: s in Coalesced(req.scope, Normals(req.scope, raws)).value && Collides(s, e))
            <==> exists s :: s in Normals(req.scope, raws) && Collides(s, e)
  {
    NormalsAreValid(req, raws);
    CoalescingKeepsMeaning(req.scope, Normals(req.scope, raws));
    SharedWork(Normals(req.scope, raws), Coalesced(req.scope, Normals(req.scope, raws)).value, e);
    SharedWork(Coalesced(req.scope, Normals(req.scope, raws)).value, Normals(req.scope, raws), e);
  }

  lemma SharedWork(a: seq<Shift>, b: seq<Shift>, e: Existing)
    requires SameMeaning(a, b) && AllValid(a) && e.start < e.end
    ensures (exists s :: s in a && Collides(s, e)) ==> exists s :: s in b && Collides(s, e)
  {
    if exists s :: s in a && Collides(s, e) {
      var s :| s in a && Collides(s, e);
      assert ValidShift(s);
      var t := if s.start < e.start then e.start else s.start;
      assert Works(s, s.staff, s.role, t);
      assert OnDuty(a, s.staff, s.role, t);
      assert OnDuty(b, s.staff, s.role, t);
      var r :| r in b && Works(r, s.staff, s.role, t);
      assert Collides(r, e);
    }
  }

  // ---- ids of the final shifts ----

  /** Ids as the worker derives them: a shift's from its own fields, a break's from its shift and a number. */
  ghost predicate DerivedIds(scope: Scope, s: Shift) {
    && s.id == ShiftId(scope, s.staff, s.start, s.end, s.role)
    && (forall k :: 0 <= k < |s.breaks| ==> s.breaks[k].id.BreakId? && s.breaks[k].id.shift == s.id)
    && (forall k, l :: 0 <= k < l < |s.breaks| ==> s.breaks[k].id != s.breaks[l].id)
  }

  lemma NormalHasDerivedIds(scope: Scope, raw: RawShift)
    ensures DerivedIds(scope, Normal(scope, raw))
  {
    var id := NormalId(scope, raw);
    var numbered := Numbered(id, raw.breaks);
    var ordered := SortBreaks(numbered);
    SortBreaksSorts(numbered);
    forall k | 0 <= k < |ordered| ensures ordered[k].id.BreakId? && ordered[k].id.shift == id {
      assert ordered[k] in multiset(numbered);
    }
    forall k, l | 0 <= k < l < |ordered| ensures ordered[k].id != ordered[l].id {
      PairOfPositions(ordered, k, l);
      var m, n := PositionsOfPair(numbered, ordered[k], ordered[l]);
    }
  }

  lemma {:induction false} FoldHasDerivedIds(scope: Scope, ordered: seq<Shift>)
    requires forall s :: s in ordered ==> DerivedIds(scope, s)
    requires Fold(scope, ordered).Some?
    ensures forall s :: s in Fold(scope, ordered).value ==> DerivedIds(scope, s)
  {
    if ordered != [] {
      var n := |ordered| - 1;
      FoldHasDerivedIds(scope, ordered[..n]);
      var done := Fold(scope, ordered[..n]).value;
      forall s | s in Fold(scope, ordered).value ensures DerivedIds(scope, s) {
        assert s in done || s == ordered[n] || (done != [] && s == Join(scope, done[|done| - 1], ordered[n]));
      }
    }
  }

  lemma DerivedIdsAreDistinct(scope: Scope, c: seq<Shift>)
    requires forall s :: s in c ==> DerivedIds(scope, s)
    requires AllValid(c) && Settled(c)
    ensures DistinctIds(c)
  {
    forall i, j | 0 <= i < j < |c| ensures c[i].id != c[j].id {
      assert DerivedIds(scope, c[i]) && DerivedIds(scope, c[j]) && ValidShift(c[i]);
    }
    forall i, k, j, l, id | HoldsBreak(c, i, k, id) && HoldsBreak(c, j, l, id) ensures i == j && k == l {
      assert DerivedIds(scope, c[i]) && DerivedIds(scope, c[j]);
      assert id.shift == c[i].id && id.shift == c[j].id;
    }
  }

  /** What the worker hands to the commit always has distinct ids, so the commit replaces the draft exactly. */
  lemma AcceptedSolutionsCommitExactly(req: Request, raws: seq<RawShift>, db: Db, p: SolvePayload, job: string, retry: int, token: Option<Token>)
    requires AllAcceptable(req, raws) && p.scope == req.scope
    requires Coalesced(req.scope, Normals(req.scope, raws)).Some?
    ensures var solved := Coalesced(req.scope, Normals(req.scope, raws)).value;
            var (after, outcome) := Commit(db, p, solved, job, retry, token);
            && DistinctIds(solved)
            && (outcome.Done? && HasRow(db, p.scope, job) && !db.jobs[job].status.Succeeded? ==>
                  && LiveSnapshot(after.plan, p.scope).Keys == TargetIds(solved)
                  && (forall i :: 0 <= i < |solved| ==> StoredAs(after.plan, p.scope, solved[i]))
                  && forall id :: id in BreaksOf(after.plan, TargetIds(solved)) <==> exists i, k :: HoldsBreak(solved, i, k, id))
  {
    var normals := Normals(req.scope, raws);
    NormalsAreValid(req, raws);
    forall s | s in SortShifts(normals) ensures DerivedIds(req.scope, s) {
      SortShiftsSorts(normals);
      assert s in multiset(normals);
      var i :| 0 <= i < |normals| && normals[i] == s;
      NormalHasDerivedIds(req.scope, raws[i]);
    }
    FoldHasDerivedIds(req.scope, SortShifts(normals));
    CoalescingKeepsMeaning(req.scope, normals);
    var solved := Coalesced(req.scope, normals).value;
    DerivedIdsAreDistinct(req.scope, solved);
    CommitIsExactOrNothing(db, p, solved, job, retry, token);
  }

  // ---- acceptance in fields ----

  predicate BreaksGood(raw: RawShift) {
    && (forall k :: 0 <= k < |raw.breaks| ==> raw.start <= raw.breaks[k].start < raw.breaks[k].end <= raw.end)
    && (forall k, l :: 0 <= k < l < |raw.breaks| ==>
          raw.breaks[k].end <= raw.breaks[l].start || raw.breaks[l].end <= raw.breaks[k].start)
  }

  /** A shift of known staff that begins in the schedule window and lasts at most 24 hours, with breaks inside it and apart. */
  predicate ShiftGood(req: Request, raw: RawShift) {
    && raw.staff in req.staff && req.start <= raw.start < req.end
    && raw.start < raw.end <= raw.start + 24 * 60 * 60 * 1_000_000
    && BreaksGood(raw)
  }

  /** Not empty, every shift good, and nobody in two shifts at once. */
  ghost predicate AnswerGood(req: Request, raws: seq<RawShift>) {
    && raws != []
    && (forall i :: 0 <= i < |raws| ==> ShiftGood(req, raws[i]))
    && (forall i, j :: 0 <= i < j < |raws| && raws[i].staff == raws[j].staff ==>
          raws[i].end <= raws[j].start || raws[j].end <= raws[i].start)
  }

  /** At most 24 hours long, and apart from whatever else that person already works. */
  ghost predicate FinalGood(req: Request, s: Shift) {
    && s.end <= s.start + 24 * 60 * 60 * 1_000_000
    && forall k :: 0 <= k < |req.existing| && req.existing[k].staff == s.staff ==>
         req.existing[k].end <= s.start || s.end <= req.existing[k].start
  }

  lemma FinalOkInFields(req: Request, s: Shift)
    ensures FinalOk(req, s) <==> FinalGood(req, s)
  {
    assert forall k :: 0 <= k < |req.existing| ==> req.existing[k] in req.existing;
  }

  lemma AnswerInFields(req: Request, raws: seq<RawShift>)
    ensures raws != [] && AllAcceptable(req, raws) <==> AnswerGood(req, raws)
  {
    if AnswerGood(req, raws) {
      forall i, j | 0 <= i < j < |raws| ensures !RawOverlap(raws[i], raws[j]) {
        assert ShiftGood(req, raws[i]) && ShiftGood(req, raws[j]);
      }
      forall i | 0 <= i < |raws| ensures ShiftAcceptable(req, raws[i]) {
        assert ShiftGood(req, raws[i]);
      }
    }
    if raws != [] && AllAcceptable(req, raws) {
      forall i, j | 0 <= i < j < |raws| && raws[i].staff == raws[j].staff
        ensures raws[i].end <= raws[j].start || raws[j].end <= raws[i].start
      {
        assert !RawOverlap(raws[i], raws[j]);
      }
      forall i | 0 <= i < |raws| ensures ShiftGood(req, raws[i]) {
        assert ShiftAcceptable(req, raws[i]);
        GoodBreaks(raws[i]);
      }
    }
  }

  lemma GoodBreaks(raw: RawShift)
    requires BreaksAcceptable(raw.breaks, raw.start, raw.end)
    ensures BreaksGood(raw)
  {
    forall k | 0 <= k < |raw.breaks| ensures raw.start <= raw.breaks[k].start < raw.breaks[k].end <= raw.end {
      assert InsideShift(raw.breaks[k], raw.start, raw.end);
    }
    forall k, l | 0 <= k < l < |raw.breaks|
      ensures raw.breaks[k].end <= raw.breaks[l].start || raw.breaks[l].end <= raw.breaks[k].start
    {
      assert Apart(raw.breaks[k], raw.breaks[l]);
    }
  }

  /** The engine's answer is accepted exactly when its shifts are good and so are the shifts they are joined to. */
  lemma AcceptedExactly(req: Request, raws: seq<RawShift>)
    ensures (&& raws != [] && AllAcceptable(req, raws)
             && Coalesced(req.scope, Normals(req.scope, raws)).Some?
             && forall s <- Coalesced(req.scope, Normals(req.scope, raws)).value :: FinalOk(req, s))
            <==>
            (&& AnswerGood(req, raws)
             && Coalesced(req.scope, Normals(req.scope, raws)).Some?
             && forall s <- Coalesced(req.scope, Normals(req.scope, raws)).value :: FinalGood(req, s))
    ensures AnswerGood(req, raws) ==> Coalesced(req.scope, Normals(req.scope, raws)).Some?
  {
    AnswerInFields(req, raws);
    forall s ensures FinalOk(req, s) <==> FinalGood(req, s) {
      FinalOkInFields(req, s);
    }
    if AnswerGood(req, raws) {
      NormalsAreValid(req, raws);
      FailsExactlyOnOverlap(req.scope, Normals(req.scope, raws));
    }
  }
}
