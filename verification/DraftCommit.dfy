/**
 What a successful commit leaves in the draft: exactly the solved shifts with
 exactly their breaks, and nothing else touched.
 */
module DraftCommit {
  import opened Results
  import opened Shifts
  import opened Jobs

  ghost predicate HoldsBreak(solved: seq<Shift>, i: int, k: int, id: Id) {
    0 <= i < |solved| && 0 <= k < |solved[i].breaks| && solved[i].breaks[k].id == id
  }

  /** No two solved shifts share an id, and no two solved breaks do. */
  ghost predicate DistinctIds(solved: seq<Shift>) {
    && (forall i, j :: 0 <= i < j < |solved| ==> solved[i].id != solved[j].id)
    && (forall i, k, j, l, id :: HoldsBreak(solved, i, k, id) && HoldsBreak(solved, j, l, id) ==> i == j && k == l)
  }

  lemma DistinctPrefix(solved: seq<Shift>)
    requires DistinctIds(solved) && solved != []
    ensures DistinctIds(solved[..|solved| - 1])
  {
    var front := solved[..|solved| - 1];
    forall i, k, j, l, id | HoldsBreak(front, i, k, id) && HoldsBreak(front, j, l, id) ensures i == j && k == l {
      assert HoldsBreak(solved, i, k, id) && HoldsBreak(solved, j, l, id);
    }
  }

  lemma TargetIdsGrow(solved: seq<Shift>)
    requires solved != []
    ensures TargetIds(solved) == TargetIds(solved[..|solved| - 1]) + {solved[|solved| - 1].id}
  {
    var front := solved[..|solved| - 1];
    forall id | id in TargetIds(solved) ensures id in TargetIds(front) + {solved[|solved| - 1].id} {
      var i :| 0 <= i < |solved| && solved[i].id == id;
      assert i < |front| ==> front[i].id == id;
    }
    forall id | id in TargetIds(front) ensures id in TargetIds(solved) {
      var i :| 0 <= i < |front| && front[i].id == id;
      assert solved[i].id == id;
    }
  }

  lemma {:induction false} PutShiftsKeys(rows: map<Id, ShiftRow>, scope: Scope, now: int, solved: seq<Shift>)
    ensures PutShifts(rows, scope, now, solved).Keys == rows.Keys + TargetIds(solved)
  {
    if solved != [] {
      PutShiftsKeys(rows, scope, now, solved[..|solved| - 1]);
      TargetIdsGrow(solved);
    }
  }

  lemma {:induction false} PutShiftsElsewhere(rows: map<Id, ShiftRow>, scope: Scope, now: int, solved: seq<Shift>, id: Id)
    requires id in rows && id !in TargetIds(solved)
    ensures id in PutShifts(rows, scope, now, solved) && PutShifts(rows, scope, now, solved)[id] == rows[id]
  {
    if solved != [] {
      TargetIdsGrow(solved);
      PutShiftsElsewhere(rows, scope, now, solved[..|solved| - 1], id);
    }
  }

  lemma {:induction false} PutShiftAt(rows: map<Id, ShiftRow>, scope: Scope, now: int, solved: seq<Shift>, i: nat)
    requires i < |solved| && forall j :: i < j < |solved| ==> solved[j].id != solved[i].id
    ensures solved[i].id in PutShifts(rows, scope, now, solved)
    ensures PutShifts(rows, scope, now, solved)[solved[i].id] == SolvedRow(scope, now, solved[i])
  {
    if i < |solved| - 1 {
      PutShiftAt(rows, scope, now, solved[..|solved| - 1], i);
    }
  }

  lemma PutShiftsAt(rows: map<Id, ShiftRow>, scope: Scope, now: int, solved: seq<Shift>)
    requires DistinctIds(solved)
    ensures var after := PutShifts(rows, scope, now, solved);
            && after.Keys == rows.Keys + TargetIds(solved)
            && (forall i :: 0 <= i < |solved| ==> after[solved[i].id] == SolvedRow(scope, now, solved[i]))
            && (forall id :: id in rows && id !in TargetIds(solved) ==> after[id] == rows[id])
  {
    var after := PutShifts(rows, scope, now, solved);
    PutShiftsKeys(rows, scope, now, solved);
    forall i | 0 <= i < |solved| ensures solved[i].id in after && after[solved[i].id] == SolvedRow(scope, now, solved[i]) {
      PutShiftAt(rows, scope, now, solved, i);
    }
    forall id | id in rows && id !in TargetIds(solved) ensures id in after && after[id] == rows[id] {
      PutShiftsElsewhere(rows, scope, now, solved, id);
    }
  }

  ghost predicate Mentions(breaks: seq<Break>, id: Id) {
    exists k :: 0 <= k < |breaks| && breaks[k].id == id
  }

  lemma {:induction false} PutBreaksElsewhere(rows: map<Id, BreakRow>, shift: Id, breaks: seq<Break>, id: Id)
    requires !Mentions(breaks, id)
    ensures var after := PutBreaks(rows, shift, breaks);
            (id in after <==> id in rows) && (id in rows ==> after[id] == rows[id])
  {
    if breaks != [] {
      var front := breaks[..|breaks| - 1];
      assert !Mentions(front, id);
      PutBreaksElsewhere(rows, shift, front, id);
      assert breaks[|breaks| - 1].id != id;
    }
  }

  lemma {:induction false} PutBreaksAt(rows: map<Id, BreakRow>, shift: Id, breaks: seq<Break>, k: nat)
    requires k < |breaks|
    requires forall l :: k < l < |breaks| ==> breaks[l].id != breaks[k].id
    ensures var after := PutBreaks(rows, shift, breaks);
            breaks[k].id in after && after[breaks[k].id] == SolvedBreakRow(shift, breaks[k])
  {
    if k < |breaks| - 1 {
      PutBreaksAt(rows, shift, breaks[..|breaks| - 1], k);
    }
  }

  /** The break table after all upserts: the solved breaks, and the former rows elsewhere. */
  ghost predicate BreaksPut(after: map<Id, BreakRow>, rows: map<Id, BreakRow>, solved: seq<Shift>) {
    && (forall i, k, id :: HoldsBreak(solved, i, k, id) ==>
          id in after && after[id] == SolvedBreakRow(solved[i].id, solved[i].breaks[k]))
    && (forall id :: (forall i, k :: !HoldsBreak(solved, i, k, id)) ==>
          (id in after <==> id in rows) && (id in rows ==> after[id] == rows[id]))
  }

  lemma {:induction false} PutAllBreaksAt(rows: map<Id, BreakRow>, solved: seq<Shift>)
    requires DistinctIds(solved)
    ensures BreaksPut(PutAllBreaks(rows, solved), rows, solved)
  {
    if solved != [] {
      var n := |solved| - 1;
      var front, last := solved[..n], solved[n];
      DistinctPrefix(solved);
      PutAllBreaksAt(rows, front);
      var mid := PutAllBreaks(rows, front);
      forall k, l | 0 <= k < l < |last.breaks| ensures last.breaks[k].id != last.breaks[l].id {
        assert HoldsBreak(solved, n, k, last.breaks[k].id) && HoldsBreak(solved, n, l, last.breaks[l].id);
      }
      var after := PutAllBreaks(rows, solved);
      forall i, k, id | HoldsBreak(solved, i, k, id)
        ensures id in after && after[id] == SolvedBreakRow(solved[i].id, solved[i].breaks[k])
      {
        if i < n {
          assert HoldsBreak(front, i, k, id);
          if Mentions(last.breaks, id) {
            var l :| 0 <= l < |last.breaks| && last.breaks[l].id == id;
            assert HoldsBreak(solved, n, l, id);
          }
          PutBreaksElsewhere(mid, last.id, last.breaks, id);
        } else {
          PutBreaksAt(mid, last.id, last.breaks, k);
        }
      }
      forall id | forall i, k :: !HoldsBreak(solved, i, k, id)
        ensures (id in after <==> id in rows) && (id in rows ==> after[id] == rows[id])
      {
        forall i, k ensures !HoldsBreak(front, i, k, id) {
          assert !HoldsBreak(solved, i, k, id);
        }
        if Mentions(last.breaks, id) {
          var k :| 0 <= k < |last.breaks| && last.breaks[k].id == id;
          assert HoldsBreak(solved, n, k, id);
        }
        PutBreaksElsewhere(mid, last.id, last.breaks, id);
      }
    }
  }

  /** The ids of the breaks that belong to the given shifts. */
  function BreaksOf(plan: Plan, shifts: set<Id>): set<Id> {
    set id | id in plan.breaks && plan.breaks[id].shift in shifts
  }

  /** The shift stands in the plan, live and field by field, with all of its breaks. */
  ghost predicate StoredAs(plan: Plan, scope: Scope, s: Shift) {
    && s.id in plan.shifts
    && var row := plan.shifts[s.id];
    && row.scope == scope && !row.deleted
    && row.user == s.staff && row.role == s.role && row.start == s.start && row.end == s.end
    && forall k :: 0 <= k < |s.breaks| ==> BreakStoredAs(plan, s.id, s.breaks[k])
  }

  ghost predicate BreakStoredAs(plan: Plan, shift: Id, b: Break) {
    && b.id in plan.breaks
    && var row := plan.breaks[b.id];
    && row.shift == shift && row.kind == b.kind && row.paid == b.paid && row.start == b.start && row.end == b.end
  }

  lemma SolvedRowsAreStored(plan: Plan, scope: Scope, now: int, solved: seq<Shift>)
    requires DistinctIds(solved)
    ensures var after := ReplaceDraft(plan, scope, now, solved);
            forall i :: 0 <= i < |solved| ==>
              solved[i].id in after.shifts && after.shifts[solved[i].id] == SolvedRow(scope, now, solved[i])
  {
    PutShiftsAt(SoftDelete(plan.shifts, now, LiveSnapshot(plan, scope).Keys - TargetIds(solved)), scope, now, solved);
  }

  lemma NothingElseIsLive(plan: Plan, scope: Scope, now: int, solved: seq<Shift>, id: Id)
    requires DistinctIds(solved) && id !in TargetIds(solved)
    ensures id !in LiveSnapshot(ReplaceDraft(plan, scope, now, solved), scope)
  {
    PutShiftsAt(SoftDelete(plan.shifts, now, LiveSnapshot(plan, scope).Keys - TargetIds(solved)), scope, now, solved);
  }

  lemma LiveShiftsAreTheSolved(plan: Plan, scope: Scope, now: int, solved: seq<Shift>)
    requires DistinctIds(solved)
    ensures LiveSnapshot(ReplaceDraft(plan, scope, now, solved), scope).Keys == TargetIds(solved)
  {
    var after := ReplaceDraft(plan, scope, now, solved);
    SolvedRowsAreStored(plan, scope, now, solved);
    forall id | id in TargetIds(solved) ensures id in LiveSnapshot(after, scope) {
      var i :| 0 <= i < |solved| && solved[i].id == id;
      assert after.shifts[id] == SolvedRow(scope, now, solved[i]);
    }
    forall id | id !in TargetIds(solved) ensures id !in LiveSnapshot(after, scope) {
      NothingElseIsLive(plan, scope, now, solved, id);
    }
  }

  lemma BreaksAreTheSolved(plan: Plan, scope: Scope, now: int, solved: seq<Shift>)
    requires DistinctIds(solved)
    ensures var after := ReplaceDraft(plan, scope, now, solved);
            && (forall id :: id in BreaksOf(after, TargetIds(solved)) <==> exists i, k :: HoldsBreak(solved, i, k, id))
            && (forall i, k, id :: HoldsBreak(solved, i, k, id) ==>
                  id in after.breaks && after.breaks[id] == SolvedBreakRow(solved[i].id, solved[i].breaks[k]))
  {
    var target := TargetIds(solved);
    var live := LiveSnapshot(plan, scope).Keys;
    var after := ReplaceDraft(plan, scope, now, solved);
    var kept := DeleteBreaksOf(DeleteBreaksOf(plan.breaks, live - target), target);
    PutAllBreaksAt(kept, solved);
    forall id ensures id in BreaksOf(after, target) <==> exists i, k :: HoldsBreak(solved, i, k, id) {
      if exists i, k :: HoldsBreak(solved, i, k, id) {
        var i, k :| HoldsBreak(solved, i, k, id);
        assert after.breaks[id] == SolvedBreakRow(solved[i].id, solved[i].breaks[k]);
        assert solved[i].id in target;
      }
    }
  }

  /** The live shifts of the draft and their breaks are exactly the solved ones. */
  lemma DraftIsExactlyTheSolution(plan: Plan, scope: Scope, now: int, solved: seq<Shift>)
    requires DistinctIds(solved)
    ensures var after := ReplaceDraft(plan, scope, now, solved);
            var target := TargetIds(solved);
            && LiveSnapshot(after, scope).Keys == target
            && (forall i :: 0 <= i < |solved| ==>
                  solved[i].id in after.shifts && after.shifts[solved[i].id] == SolvedRow(scope, now, solved[i]))
            && (forall id :: id in BreaksOf(after, target) <==> exists i, k :: HoldsBreak(solved, i, k, id))
            && (forall i, k, id :: HoldsBreak(solved, i, k, id) ==>
                  id in after.breaks && after.breaks[id] == SolvedBreakRow(solved[i].id, solved[i].breaks[k]))
  {
    SolvedRowsAreStored(plan, scope, now, solved);
    LiveShiftsAreTheSolved(plan, scope, now, solved);
    BreaksAreTheSolved(plan, scope, now, solved);
  }

  /** Every solved shift is stored with the fields it has. */
  lemma ShiftsAreStoredAsSolved(plan: Plan, scope: Scope, now: int, solved: seq<Shift>, i: nat)
    requires DistinctIds(solved) && i < |solved|
    ensures StoredAs(ReplaceDraft(plan, scope, now, solved), scope, solved[i])
  {
    var after := ReplaceDraft(plan, scope, now, solved);
    SolvedRowsAreStored(plan, scope, now, solved);
    BreaksAreTheSolved(plan, scope, now, solved);
    forall k | 0 <= k < |solved[i].breaks| ensures BreakStoredAs(after, solved[i].id, solved[i].breaks[k]) {
      assert HoldsBreak(solved, i, k, solved[i].breaks[k].id);
    }
  }

  /** Shifts outside the old and new draft, and their breaks, are as they were; stale shifts are only marked deleted. */
  lemma RestIsUntouched(plan: Plan, scope: Scope, now: int, solved: seq<Shift>, id: Id)
    requires DistinctIds(solved)
    ensures var after := ReplaceDraft(plan, scope, now, solved);
            var target := TargetIds(solved);
            var live := LiveSnapshot(plan, scope).Keys;
            && after.locations == plan.locations && after.schedules == plan.schedules && after.members == plan.members
            && (id !in target ==> (id in after.shifts <==> id in plan.shifts))
            && (id in plan.shifts && id !in target && id !in live ==> after.shifts[id] == plan.shifts[id])
            && (id in live && id !in target ==> after.shifts[id] == plan.shifts[id].(deleted := true, updatedAt := now))
            && ((forall i, k :: !HoldsBreak(solved, i, k, id)) ==>
                  && (id in after.breaks <==> id in plan.breaks && plan.breaks[id].shift !in live && plan.breaks[id].shift !in target)
                  && (id in after.breaks ==> after.breaks[id] == plan.breaks[id]))
  {
    var target := TargetIds(solved);
    var live := LiveSnapshot(plan, scope).Keys;
    PutShiftsAt(SoftDelete(plan.shifts, now, live - target), scope, now, solved);
    PutAllBreaksAt(DeleteBreaksOf(DeleteBreaksOf(plan.breaks, live - target), target), solved);
  }

  /** The commit step as a whole: all of it, with the revision moved by one, or nothing. */
  lemma CommitIsExactOrNothing(db: Db, p: SolvePayload, solved: seq<Shift>, job: string, retry: int, token: Option<Token>)
    requires DistinctIds(solved)
    ensures var (after, outcome) := Commit(db, p, solved, job, retry, token);
            if outcome.Done? && !(HasRow(db, p.scope, job) && db.jobs[job].status.Succeeded?) then
              && LiveSnapshot(db.plan, p.scope) == p.snapshot
              && LiveSnapshot(after.plan, p.scope).Keys == TargetIds(solved)
              && (forall id :: id in BreaksOf(after.plan, TargetIds(solved)) <==> exists i, k :: HoldsBreak(solved, i, k, id))
              && (forall i :: 0 <= i < |solved| ==> StoredAs(after.plan, p.scope, solved[i]))
              && p.scope.schedule in after.plan.schedules
              && after.plan.schedules[p.scope.schedule].revision == p.draftRevision + 1
              && job in after.jobs && after.jobs[job].status.Succeeded?
            else
              after == db
  {
    DraftIsExactlyTheSolution(db.plan, p.scope, db.now, solved);
    var replaced := ReplaceDraft(db.plan, p.scope, db.now, solved);
    var after := Commit(db, p, solved, job, retry, token).0;
    if after != db {
      forall i | 0 <= i < |solved| ensures StoredAs(after.plan, p.scope, solved[i]) {
        ShiftsAreStoredAsSolved(db.plan, p.scope, db.now, solved, i);
        assert StoredAs(replaced, p.scope, solved[i]);
      }
      assert after.plan.breaks == replaced.breaks && after.plan.shifts == replaced.shifts;
      assert BreaksOf(after.plan, TargetIds(solved)) == BreaksOf(replaced, TargetIds(solved));
      assert LiveSnapshot(after.plan, p.scope) == LiveSnapshot(replaced, p.scope);
    }
  }

  /** Any draft revision, location or snapshot change since queueing makes the commit a no-op that fails. */
  lemma ChangedDraftIsRefused(db: Db, p: SolvePayload, solved: seq<Shift>, job: string, retry: int, token: Option<Token>)
    requires HasRow(db, p.scope, job) && !Terminal(db.jobs[job].status) && db.jobs[job].token == token && token.Some?
    requires p.scope.schedule in db.plan.schedules
    requires || db.plan.schedules[p.scope.schedule].revision != p.draftRevision
             || LiveSnapshot(db.plan, p.scope) != p.snapshot
    ensures Commit(db, p, solved, job, retry, token) == (db, NonRetryable)
  {
  }

  /**
   Replaying a commit right after it succeeded changes nothing. The replay never
   reaches the early return for finished jobs: its own revision bump already fails
   the draft guard, so it is reported as a stale draft.
   */
  lemma ReplayChangesNothing(db: Db, p: SolvePayload, solved: seq<Shift>, job: string, retry: int, token: Option<Token>,
                             solved': seq<Shift>, retry': int, token': Option<Token>)
    requires Commit(db, p, solved, job, retry, token).1.Done?
    requires !db.jobs[job].status.Succeeded?
    ensures var after := Commit(db, p, solved, job, retry, token).0;
            Commit(after, p, solved', job, retry', token') == (after, NonRetryable)
  {
  }
}
