/**
 From the engine's answer to the stored draft: after a successful commit the draft says of
 every person, role and instant what the accepted answer said.
 */
module DraftMeaning {
  import opened Results
  import opened Shifts
  import opened Coalesce
  import opened CoalesceMeaning
  import opened Jobs
  import opened DraftCommit
  import opened Normalize

  // ---- what the stored draft and the engine's answer say ----

  /** A live row of the schedule has the person at work in the role. */
  ghost predicate DraftWorks(plan: Plan, scope: Scope, staff: string, role: string, t: int) {
    exists id :: id in plan.shifts && RowWorks(plan.shifts[id], scope, staff, role, t)
  }

  predicate RowWorks(row: ShiftRow, scope: Scope, staff: string, role: string, t: int) {
    && row.scope.tenant == scope.tenant && row.scope.schedule == scope.schedule && !row.deleted
    && row.user == staff && row.role == role && row.start <= t < row.end
  }

  /** A break row of a live shift row of the schedule has the person on break. */
  ghost predicate DraftRests(plan: Plan, scope: Scope, staff: string, role: string, kind: string, paid: bool, t: int) {
    exists b :: b in plan.breaks && plan.breaks[b].shift in plan.shifts
                && BreakRowRests(plan.breaks[b], plan.shifts[plan.breaks[b].shift], scope, staff, role, kind, paid, t)
  }

  predicate BreakRowRests(b: BreakRow, row: ShiftRow, scope: Scope, staff: string, role: string, kind: string, paid: bool, t: int) {
    && row.scope.tenant == scope.tenant && row.scope.schedule == scope.schedule && !row.deleted
    && row.user == staff && row.role == role
    && b.kind == kind && b.paid == paid && b.start <= t < b.end
  }

  ghost predicate AnswerWorks(raws: seq<RawShift>, staff: string, role: string, t: int) {
    exists i :: 0 <= i < |raws| && raws[i].staff == staff && raws[i].role == role && raws[i].start <= t < raws[i].end
  }

  ghost predicate AnswerRests(raws: seq<RawShift>, staff: string, role: string, kind: string, paid: bool, t: int) {
    exists i, k :: 0 <= i < |raws| && raws[i].staff == staff && raws[i].role == role
                   && 0 <= k < |raws[i].breaks| && RawRests(raws[i].breaks[k], kind, paid, t)
  }

  predicate RawRests(b: RawBreak, kind: string, paid: bool, t: int) {
    b.kind == kind && b.paid == paid && b.start <= t < b.end
  }

  // ---- the draft means the solved shifts ----

  /** Exactly the solved shifts are live, with exactly their breaks, field by field. */
  ghost predicate DraftHolds(plan: Plan, scope: Scope, solved: seq<Shift>) {
    && LiveSnapshot(plan, scope).Keys == TargetIds(solved)
    && (forall i :: 0 <= i < |solved| ==> StoredAs(plan, scope, solved[i]))
    && (forall id :: id in BreaksOf(plan, TargetIds(solved)) ==> exists i, k :: HoldsBreak(solved, i, k, id))
  }

  lemma LiveRowIsSolved(plan: Plan, scope: Scope, solved: seq<Shift>, id: Id) returns (i: nat)
    requires DraftHolds(plan, scope, solved) && id in plan.shifts && IsLive(plan.shifts[id], scope)
    ensures i < |solved| && solved[i].id == id && StoredAs(plan, scope, solved[i])
  {
    assert id in LiveSnapshot(plan, scope);
    i :| 0 <= i < |solved| && solved[i].id == id;
  }

  lemma DraftWorksAsSolved(plan: Plan, scope: Scope, solved: seq<Shift>, staff: string, role: string, t: int)
    requires DraftHolds(plan, scope, solved)
    ensures DraftWorks(plan, scope, staff, role, t) <==> OnDuty(solved, staff, role, t)
  {
    if DraftWorks(plan, scope, staff, role, t) {
      var id :| id in plan.shifts && RowWorks(plan.shifts[id], scope, staff, role, t);
      var i := LiveRowIsSolved(plan, scope, solved, id);
      assert Works(solved[i], staff, role, t);
    }
    if OnDuty(solved, staff, role, t) {
      var s :| s in solved && Works(s, staff, role, t);
      var i :| 0 <= i < |solved| && solved[i] == s;
      assert StoredAs(plan, scope, solved[i]);
      assert RowWorks(plan.shifts[s.id], scope, staff, role, t);
    }
  }

  lemma DraftRestsAsSolved(plan: Plan, scope: Scope, solved: seq<Shift>, staff: string, role: string, kind: string, paid: bool, t: int)
    requires DraftHolds(plan, scope, solved) && DistinctIds(solved)
    ensures DraftRests(plan, scope, staff, role, kind, paid, t) <==> OnBreak(solved, staff, role, kind, paid, t)
  {
    if DraftRests(plan, scope, staff, role, kind, paid, t) {
      RestingRowIsSolved(plan, scope, solved, staff, role, kind, paid, t);
    }
    if OnBreak(solved, staff, role, kind, paid, t) {
      var s :| s in solved && Rests(s, staff, role, kind, paid, t);
      var i :| 0 <= i < |solved| && solved[i] == s;
      var k :| 0 <= k < |s.breaks| && Covers(s.breaks[k], kind, paid, t);
      assert StoredAs(plan, scope, solved[i]) && BreakStoredAs(plan, s.id, s.breaks[k]);
      assert BreakRowRests(plan.breaks[s.breaks[k].id], plan.shifts[s.id], scope, staff, role, kind, paid, t);
    }
  }

  lemma RestingRowIsSolved(plan: Plan, scope: Scope, solved: seq<Shift>, staff: string, role: string, kind: string, paid: bool, t: int)
    requires DraftHolds(plan, scope, solved) && DistinctIds(solved) && DraftRests(plan, scope, staff, role, kind, paid, t)
    ensures OnBreak(solved, staff, role, kind, paid, t)
  {
    var b :| b in plan.breaks && plan.breaks[b].shift in plan.shifts
             && BreakRowRests(plan.breaks[b], plan.shifts[plan.breaks[b].shift], scope, staff, role, kind, paid, t);
    var i := LiveRowIsSolved(plan, scope, solved, plan.breaks[b].shift);
    assert b in BreaksOf(plan, TargetIds(solved));
    var j, k :| HoldsBreak(solved, j, k, b);
    assert StoredAs(plan, scope, solved[j]) && BreakStoredAs(plan, solved[j].id, solved[j].breaks[k]);
    assert Covers(solved[j].breaks[k], kind, paid, t);
    assert solved[j] in solved && Rests(solved[j], staff, role, kind, paid, t);
  }

  // ---- the normalised shifts mean the engine's answer ----

  lemma NormalsWorkAsAnswered(scope: Scope, raws: seq<RawShift>, staff: string, role: string, t: int)
    ensures OnDuty(Normals(scope, raws), staff, role, t) <==> AnswerWorks(raws, staff, role, t)
  {
    var normals := Normals(scope, raws);
    if OnDuty(normals, staff, role, t) {
      var s :| s in normals && Works(s, staff, role, t);
      var i :| 0 <= i < |normals| && normals[i] == s;
      assert raws[i].staff == staff;
    }
    if AnswerWorks(raws, staff, role, t) {
      var i :| 0 <= i < |raws| && raws[i].staff == staff && raws[i].role == role && raws[i].start <= t < raws[i].end;
      assert normals[i] in normals && Works(normals[i], staff, role, t);
    }
  }

  lemma SortedBreakWasThere(id: Id, raw: seq<RawBreak>, b: Break)
    ensures b in SortBreaks(Numbered(id, raw)) <==> b in Numbered(id, raw)
  {
    SortBreaksSorts(Numbered(id, raw));
    assert b in SortBreaks(Numbered(id, raw)) <==> b in multiset(SortBreaks(Numbered(id, raw)));
    assert b in Numbered(id, raw) <==> b in multiset(Numbered(id, raw));
  }

  /** A normalised shift rests exactly when one of its raw breaks does. */
  lemma NormalRests(scope: Scope, raw: RawShift, staff: string, role: string, kind: string, paid: bool, t: int)
    ensures Rests(Normal(scope, raw), staff, role, kind, paid, t)
            <==> raw.staff == staff && raw.role == role && exists k :: 0 <= k < |raw.breaks| && RawRests(raw.breaks[k], kind, paid, t)
  {
    var s, id := Normal(scope, raw), NormalId(scope, raw);
    var numbered := Numbered(id, raw.breaks);
    if Rests(s, staff, role, kind, paid, t) {
      var k :| 0 <= k < |s.breaks| && Covers(s.breaks[k], kind, paid, t);
      SortedBreakWasThere(id, raw.breaks, s.breaks[k]);
      var l :| 0 <= l < |numbered| && numbered[l] == s.breaks[k];
      assert RawRests(raw.breaks[l], kind, paid, t);
    }
    if k :| 0 <= k < |raw.breaks| && RawRests(raw.breaks[k], kind, paid, t) {
      assert numbered[k] in numbered;
      SortedBreakWasThere(id, raw.breaks, numbered[k]);
      var l :| 0 <= l < |s.breaks| && s.breaks[l] == numbered[k];
      assert Covers(s.breaks[l], kind, paid, t);
    }
  }

  lemma NormalsRestAsAnswered(scope: Scope, raws: seq<RawShift>, staff: string, role: string, kind: string, paid: bool, t: int)
    ensures OnBreak(Normals(scope, raws), staff, role, kind, paid, t) <==> AnswerRests(raws, staff, role, kind, paid, t)
  {
    var normals := Normals(scope, raws);
    if OnBreak(normals, staff, role, kind, paid, t) {
      var s :| s in normals && Rests(s, staff, role, kind, paid, t);
      var i :| 0 <= i < |normals| && normals[i] == s;
      NormalRests(scope, raws[i], staff, role, kind, paid, t);
    }
    if AnswerRests(raws, staff, role, kind, paid, t) {
      var i, k :| 0 <= i < |raws| && raws[i].staff == staff && raws[i].role == role
                  && 0 <= k < |raws[i].breaks| && RawRests(raws[i].breaks[k], kind, paid, t);
      NormalRests(scope, raws[i], staff, role, kind, paid, t);
      assert normals[i] in normals;
    }
  }

  // ---- end to end ----

  /** The draft says what the answer said: who works when and as what, and who is on which break. */
  ghost predicate DraftSaysTheAnswer(plan: Plan, scope: Scope, raws: seq<RawShift>) {
    && (forall staff, role, t :: DraftWorks(plan, scope, staff, role, t) <==> AnswerWorks(raws, staff, role, t))
    && (forall staff, role, kind, paid, t ::
          DraftRests(plan, scope, staff, role, kind, paid, t) <==> AnswerRests(raws, staff, role, kind, paid, t))
  }

  lemma HeldDraftSaysTheAnswer(plan: Plan, req: Request, raws: seq<RawShift>)
    requires AllAcceptable(req, raws) && Coalesced(req.scope, Normals(req.scope, raws)).Some?
    requires DistinctIds(Coalesced(req.scope, Normals(req.scope, raws)).value)
    requires DraftHolds(plan, req.scope, Coalesced(req.scope, Normals(req.scope, raws)).value)
    ensures DraftSaysTheAnswer(plan, req.scope, raws)
  {
    var normals := Normals(req.scope, raws);
    var solved := Coalesced(req.scope, normals).value;
    NormalsAreValid(req, raws);
    CoalescingKeepsMeaning(req.scope, normals);
    forall staff, role, t ensures DraftWorks(plan, req.scope, staff, role, t) <==> AnswerWorks(raws, staff, role, t) {
      DraftWorksAsSolved(plan, req.scope, solved, staff, role, t);
      assert OnDuty(normals, staff, role, t) <==> OnDuty(solved, staff, role, t);
      NormalsWorkAsAnswered(req.scope, raws, staff, role, t);
    }
    forall staff, role, kind, paid, t
      ensures DraftRests(plan, req.scope, staff, role, kind, paid, t) <==> AnswerRests(raws, staff, role, kind, paid, t)
    {
      DraftRestsAsSolved(plan, req.scope, solved, staff, role, kind, paid, t);
      assert OnBreak(normals, staff, role, kind, paid, t) <==> OnBreak(solved, staff, role, kind, paid, t);
      NormalsRestAsAnswered(req.scope, raws, staff, role, kind, paid, t);
    }
  }

  /** After the commit of an accepted answer, the stored draft says exactly what the engine answered. */
  lemma CommittedDraftSaysTheAnswer(req: Request, raws: seq<RawShift>, db: Db, p: SolvePayload, job: string, retry: int, token: Option<Token>)
    requires AllAcceptable(req, raws) && p.scope == req.scope
    requires Coalesced(req.scope, Normals(req.scope, raws)).Some?
    requires job in db.jobs && db.jobs[job].scope == p.scope && !db.jobs[job].status.Succeeded?
    requires Commit(db, p, Coalesced(req.scope, Normals(req.scope, raws)).value, job, retry, token).1.Done?
    ensures var after := Commit(db, p, Coalesced(req.scope, Normals(req.scope, raws)).value, job, retry, token).0;
            DraftSaysTheAnswer(after.plan, p.scope, raws)
  {
    var solved := Coalesced(req.scope, Normals(req.scope, raws)).value;
    AcceptedSolutionsCommitExactly(req, raws, db, p, job, retry, token);
    HeldDraftSaysTheAnswer(Commit(db, p, solved, job, retry, token).0.plan, req, raws);
  }
}
