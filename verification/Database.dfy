/**
 The worker's transactions as they run: row by row, updating the tables in
 place, and rolling back to the state at the start when they raise. Each method
 is proved to be exactly the atomic step of module `Jobs`.
 */
module Database {
  import opened Results
  import opened Credits
  import opened Shifts
  import opened Jobs

  class WorkerDatabase {
    var now: int
    var tenants: map<string, Tenant>
    var ledger: Ledger
    var jobs: map<string, Job>
    var locations: map<string, Location>
    var schedules: map<string, Schedule>
    var members: map<string, Member>
    var shifts: map<Id, ShiftRow>
    var breaks: map<Id, BreakRow>

    ghost function Snapshot(): Db
      reads this
    {
      Db(now, tenants, ledger, jobs, Plan(locations, schedules, members, shifts, breaks))
    }

    /** The tenant row under lock, read as a paid, active subscription. */
    method EntitledTenant(tenant: string) returns (entitled: bool)
      ensures entitled == Entitled(Snapshot(), tenant)
    {
      if tenant !in tenants {
        return false;
      }
      var row := tenants[tenant];
      if !row.active || !row.paidPlan || !row.subscribed {
        return false;
      }
      return row.paidThrough.Some? && row.paidThrough.value > now;
    }

    /** The shared provenance check; `exactDebt` says whether the debit's debt columns are read too. */
    method CheckProvenance(job: string, exactDebt: bool) returns (ok: bool)
      requires job in jobs
      ensures ok == if exactDebt then Provenance(Snapshot(), job) else OutcomeProvenance(Snapshot(), job)
    {
      var row := jobs[job];
      if !ValidCharge(row.charge) {
        return false;
      }
      var consumed := row.charge.consumed;
      if DebitId(job) !in ledger {
        return false;
      }
      var debit := ledger[DebitId(job)];
      if || debit.tenant != row.scope.tenant
         || debit.amount != -consumed
         || debit.reason != DebitReason(job)
         || debit.balanceAfter != Some(row.charge.newBalance)
      {
        return false;
      }
      if exactDebt && (debit.debtAmount != 0 || debit.debtAfter != 0) {
        return false;
      }
      if Refunding(row.status) {
        return ExactRefund(ledger, row.scope.tenant, job, consumed);
      }
      return RefundId(job) !in ledger;
    }

    method ClaimJob(scope: Scope, job: string, retry: int, token: Token, leaseLength: int) returns (outcome: Outcome)
      modifies this
      ensures (Snapshot(), outcome) == Claim(old(Snapshot()), scope, job, retry, token, leaseLength)
    {
      var entitled := EntitledTenant(scope.tenant);
      if job !in jobs || jobs[job].scope != scope {
        return NonRetryable;
      }
      var proven := CheckProvenance(job, true);
      if !proven {
        return NonRetryable;
      }
      var row := jobs[job];
      if Terminal(row.status) {
        return AlreadyTerminal;
      }
      if !entitled {
        return NonRetryable;
      }
      if row.status.Running? && LeaseLive(row, now) && row.token != Some(token) {
        return Busy;
      }
      jobs := jobs[job := row.(status := Running, retryCount := retry, token := Some(token), lease := Some(now + leaseLength))];
      return Claimed;
    }

    /**
     Credits `value` back to the wallet, repaying debt first, and records it under `id`. A row that is
     already there is a replay if it says the same, and otherwise a conflict; neither changes anything.
     */
    method SettlePositiveCredit(tenant: string, value: int, reason: string, id: string) returns (s: Settlement)
      modifies this`tenants, this`ledger
      ensures s == if tenant in old(tenants) then Settle(old(tenants)[tenant].wallet, old(ledger), tenant, value, reason, id) else Rejected
      ensures s.Settled? ==>
        && tenants == old(tenants)[tenant := old(tenants)[tenant].(wallet := s.wallet)]
        && ledger == old(ledger)[id := s.row]
      ensures !s.Settled? ==> tenants == old(tenants) && ledger == old(ledger)
    {
      if value <= 0 || tenant !in tenants {
        return Rejected;
      }
      var wallet := tenants[tenant].wallet;
      if wallet.balance < 0 || wallet.debt < 0 {
        return Rejected;
      }
      if id in ledger {
        var row := ledger[id];
        if || row.tenant != tenant || row.reason != reason
           || row.amount < 0 || row.debtAmount > 0
           || row.balanceAfter.None? || row.balanceAfter.value < 0 || row.debtAfter < 0
           || row.amount - row.debtAmount != value
        {
          return Rejected;
        }
        return Replayed;
      }
      var repaid := if wallet.debt <= value then wallet.debt else value;
      var spendable := value - repaid;
      var balance := wallet.balance + spendable;
      if balance > MAX_INTEGER {
        return Rejected;
      }
      var settled := Wallet(balance, wallet.debt - repaid);
      var entry := LedgerRow(tenant, spendable, -repaid, reason, Some(balance), wallet.debt - repaid);
      tenants := tenants[tenant := tenants[tenant].(wallet := settled)];
      ledger := ledger[id := entry];
      return Settled(settled, entry);
    }

    method TerminalizeWithRefund(scope: Scope, job: string, status: Status, retry: int, token: Option<Token>)
      returns (outcome: Outcome)
      requires Refunding(status)
      modifies this
      ensures (Snapshot(), outcome) == Terminalize(old(Snapshot()), scope, job, status, retry, token)
    {
      if job !in jobs || jobs[job].scope != scope {
        return OwnershipLost;
      }
      var row := jobs[job];
      var initial := row.status;
      var outcomeProven := CheckProvenance(job, false);
      var proven := CheckProvenance(job, true);
      if proven && !Terminal(initial) && MayMutate(row, token, now) {
        // The update and the settlement are one statement: both happen or neither does.
        var settled := SettlePositiveCredit(scope.tenant, row.charge.consumed, RefundReason(job), RefundId(job));
        if !settled.Settled? {
          return Retryable;
        }
        jobs := jobs[job := row.(status := status, retryCount := retry, resultShifts := None, token := None, lease := None)];
        return Done;
      }
      if !outcomeProven {
        return Retryable;
      }
      return if Terminal(initial) then Done else OwnershipLost;
    }

    method MarkJobRetrying(scope: Scope, job: string, retry: int, token: Option<Token>)
      modifies this
      ensures Snapshot() == MarkRetrying(old(Snapshot()), scope, job, retry, token)
    {
      if job in jobs && SameSchedule(jobs[job].scope, scope) && !Terminal(jobs[job].status) && MayMutate(jobs[job], token, now) {
        jobs := jobs[job := jobs[job].(status := Retrying, retryCount := retry, resultShifts := None, token := None, lease := None)];
      }
    }

    method DraftGuards(p: SolvePayload) returns (ok: bool)
      ensures ok == DraftUnchanged(Snapshot(), p)
    {
      ok := EntitledTenant(p.scope.tenant);
      if !ok || p.scope.location !in locations {
        return false;
      }
      var location := locations[p.scope.location];
      if location.tenant != p.scope.tenant || location.deleted || location.timezone != p.timezone {
        return false;
      }
      if p.scope.schedule !in schedules {
        return false;
      }
      var schedule := schedules[p.scope.schedule];
      if schedule.tenant != p.scope.tenant || schedule.location != p.scope.location || schedule.deleted {
        return false;
      }
      return schedule.draft && schedule.revision == p.draftRevision;
    }

    /** Writes one solved shift's breaks, in order, over whatever had their ids. */
    method UpsertBreaks(shift: Shift)
      modifies this`breaks
      ensures breaks == PutBreaks(old(breaks), shift.id, shift.breaks)
    {
      var k := 0;
      while k < |shift.breaks|
        invariant 0 <= k <= |shift.breaks|
        invariant breaks == PutBreaks(old(breaks), shift.id, shift.breaks[..k])
      {
        var b := shift.breaks[k];
        breaks := breaks[b.id := BreakRow(shift.id, b.kind, b.start, b.end, b.paid)];
        assert shift.breaks[..k + 1][..k] == shift.breaks[..k];
        k := k + 1;
      }
      assert shift.breaks[..k] == shift.breaks;
    }

    /** Replaces the draft's rows shift by shift; stops at a shift of an unknown member. */
    method ReplaceDraftRows(p: SolvePayload, solved: seq<Shift>) returns (ok: bool)
      modifies this`shifts, this`breaks
      ensures ok == forall s <- solved :: s.staff in p.staff
      ensures ok ==> Snapshot() == old(Snapshot()).(plan := ReplaceDraft(old(Snapshot()).plan, p.scope, old(now), solved))
    {
      ghost var plan := Snapshot().plan;
      var existing := (set id | id in shifts && IsLive(shifts[id], p.scope) :: id);
      assert existing == LiveSnapshot(plan, p.scope).Keys;
      var target := TargetIds(solved);
      var stale := existing - target;
      breaks := DeleteBreaksOf(breaks, stale);
      shifts := SoftDelete(shifts, now, stale);
      breaks := DeleteBreaksOf(breaks, target);
      ghost var shifts0, breaks0 := shifts, breaks;
      var i := 0;
      while i < |solved|
        invariant 0 <= i <= |solved|
        invariant forall s <- solved[..i] :: s.staff in p.staff
        invariant shifts == PutShifts(shifts0, p.scope, now, solved[..i])
        invariant breaks == PutAllBreaks(breaks0, solved[..i])
      {
        var shift := solved[i];
        if shift.staff !in p.staff {
          return false;
        }
        shifts := shifts[shift.id := ShiftRow(p.scope, shift.staff, shift.start, shift.end, shift.role, now, false)];
        UpsertBreaks(shift);
        assert solved[..i + 1][..i] == solved[..i];
        i := i + 1;
      }
      assert solved[..i] == solved;
      return true;
    }

    method PersistSolvedSchedule(p: SolvePayload, solved: seq<Shift>, job: string, retry: int, token: Option<Token>)
      returns (outcome: Outcome)
      modifies this
      ensures (Snapshot(), outcome) == Commit(old(Snapshot()), p, solved, job, retry, token)
    {
      var draftOk := DraftGuards(p);
      if !draftOk || job !in jobs || jobs[job].scope != p.scope {
        return NonRetryable;
      }
      var proven := CheckProvenance(job, true);
      if !proven {
        return NonRetryable;
      }
      var row := jobs[job];
      if row.status.Succeeded? {
        return Done;
      }
      if row.status.Failed? || row.status.DeadLettered? {
        return NonRetryable;
      }
      if token.None? || row.token != token {
        return OwnershipLost;
      }
      var staffOk := forall id <- p.staff :: KnownMember(Plan(locations, schedules, members, shifts, breaks), p.scope.tenant, id);
      var current := map id | id in shifts && IsLive(shifts[id], p.scope) :: shifts[id].updatedAt;
      if !staffOk || current != p.snapshot {
        return NonRetryable;
      }
      // From here the transaction writes; an error restores what it began with.
      var shiftsAtStart, breaksAtStart := shifts, breaks;
      var replaced := ReplaceDraftRows(p, solved);
      if !replaced {
        shifts, breaks := shiftsAtStart, breaksAtStart;
        return NonRetryable;
      }
      var schedule := schedules[p.scope.schedule];
      if schedule.revision == MAX_INTEGER {
        shifts, breaks := shiftsAtStart, breaksAtStart;
        return Retryable;
      }
      schedules := schedules[p.scope.schedule := schedule.(revision := schedule.revision + 1)];
      jobs := jobs[job := row.(status := Succeeded, retryCount := retry, resultShifts := Some(|solved|), token := None, lease := None)];
      return Done;
    }
  }
}
