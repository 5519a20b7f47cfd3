/**
 What each job transaction does, told in the columns of the rows it reads and writes: when it
 takes effect, when it refuses, and every value it leaves behind.
 */
module JobEffects {
  import opened Results
  import opened Credits
  import opened Shifts
  import opened Jobs
  import History = JobHistory

  // ---- what the rows say ----

  /** The tenant is active, and its paid subscription runs beyond this moment. */
  predicate Served(db: Db, tenant: string) {
    && tenant in db.tenants
    && db.tenants[tenant].active && db.tenants[tenant].paidPlan && db.tenants[tenant].subscribed
    && db.tenants[tenant].paidThrough.Some? && db.now < db.tenants[tenant].paidThrough.value
  }

  predicate Ended(status: Status) { status == Succeeded || status == Failed || status == DeadLettered }

  predicate Found(db: Db, scope: Scope, job: string) { job in db.jobs && db.jobs[job].scope == scope }

  /** A worker is on the job and its lease runs beyond this moment. */
  predicate Worked(row: Job, now: int) { row.status == Running && row.lease.Some? && now < row.lease.value }

  /** Who shows a token must show the job's own; who shows none finds the job unowned or its lease run out. */
  predicate Rightful(row: Job, token: Option<Token>, now: int) {
    (token.Some? ==> row.token == token)
    && (token.None? ==> row.token == None || (row.lease.Some? && row.lease.value <= now))
  }

  // ---- claim ----

  /** A claim is won on a job that has not ended, of a served tenant, on which no other worker is. */
  lemma ClaimInFields(s: History.State, scope: Scope, job: string, retry: int, token: Token, leaseLength: int)
    requires History.Inv(s) && s.nextToken <= token
    ensures var outcome := Claim(s.db, scope, job, retry, token, leaseLength).1;
            var found := Found(s.db, scope, job);
            && (outcome == NonRetryable <==> !found || (!Ended(s.db.jobs[job].status) && !Served(s.db, scope.tenant)))
            && (outcome == AlreadyTerminal <==> found && Ended(s.db.jobs[job].status))
            && (outcome == Busy <==> found && Served(s.db, scope.tenant) && Worked(s.db.jobs[job], s.db.now))
            && (outcome == Claimed <==> found && !Ended(s.db.jobs[job].status) && Served(s.db, scope.tenant) && !Worked(s.db.jobs[job], s.db.now))
  {
    assert job in s.db.jobs ==> History.RowOk(s, job);
  }

  /** A claim that is won writes the whole row of its job, and no other claim writes anything. */
  lemma ClaimRowInFields(db: Db, scope: Scope, job: string, retry: int, token: Token, leaseLength: int)
    ensures var (after, outcome) := Claim(db, scope, job, retry, token, leaseLength);
            && (outcome == Claimed ==> Found(db, scope, job))
            && after == if outcome == Claimed
                        then db.(jobs := db.jobs[job := Job(scope, Running, Some(token), Some(db.now + leaseLength),
                                                            db.jobs[job].charge, retry, db.jobs[job].resultShifts)])
                        else db
  {
  }

  // ---- the two failures with refund, and the retry mark ----

  /** What the wallet would hold after `value` came back, debt first. */
  function Returned(wallet: Wallet, value: int): (w: Wallet)
    ensures w.Net() == wallet.Net() + value
    ensures w.debt == 0 || w.balance == wallet.balance
  {
    if value <= wallet.debt then Wallet(wallet.balance, wallet.debt - value) else Wallet(wallet.balance + value - wallet.debt, 0)
  }

  /** The failure may be stored: the job is there, has not ended, and the caller has the right to change it. */
  predicate MayFail(db: Db, scope: Scope, job: string, token: Option<Token>) {
    Found(db, scope, job) && !Ended(db.jobs[job].status) && Rightful(db.jobs[job], token, db.now)
  }

  predicate WalletTakes(db: Db, job: string)
    requires job in db.jobs && db.jobs[job].charge.Credits? && db.jobs[job].scope.tenant in db.tenants
  {
    Returned(db.tenants[db.jobs[job].scope.tenant].wallet, db.jobs[job].charge.consumed).balance <= MAX_INTEGER
  }

  /** A failure is stored with its own status, retry count and refund, together or not at all. */
  lemma TerminalizeInFields(s: History.State, scope: Scope, job: string, status: Status, retry: int, token: Option<Token>)
    requires History.Inv(s) && (status == Failed || status == DeadLettered)
    ensures job in s.db.jobs ==> s.db.jobs[job].charge.Credits? && s.db.jobs[job].scope.tenant in s.db.tenants
    ensures var (after, outcome) := Terminalize(s.db, scope, job, status, retry, token);
            var found := Found(s.db, scope, job);
            && (outcome == OwnershipLost <==> !found || (!Ended(s.db.jobs[job].status) && !MayFail(s.db, scope, job, token)))
            && (outcome == Retryable <==> MayFail(s.db, scope, job, token) && !WalletTakes(s.db, job))
            && (outcome == Done <==>
                  found && (Ended(s.db.jobs[job].status) || (MayFail(s.db, scope, job, token) && WalletTakes(s.db, job))))
            && (!(MayFail(s.db, scope, job, token) && WalletTakes(s.db, job)) ==> after == s.db)
  {
    assert job in s.db.jobs ==> History.RowOk(s, job);
    assert job in s.db.jobs ==> History.TenantOk(s, s.db.jobs[job].scope.tenant);
  }

  /** The wallet and the ledger row after `value` came back to a sound wallet. */
  lemma SettleInFields(wallet: Wallet, ledger: Ledger, tenant: string, value: int, reason: string, id: string)
    requires 0 < value && 0 <= wallet.balance && 0 <= wallet.debt && id !in ledger
    ensures var after := Returned(wallet, value);
            Settle(wallet, ledger, tenant, value, reason, id)
            == if after.balance <= MAX_INTEGER
               then Settled(after, LedgerRow(tenant, after.balance - wallet.balance, after.debt - wallet.debt, reason,
                                             Some(after.balance), after.debt))
               else Rejected
  {
  }

  /** The rows after a failure was stored. */
  ghost predicate FailureStored(db: Db, after: Db, scope: Scope, job: string, status: Status, retry: int)
    requires job in db.jobs && scope.tenant in db.tenants && db.jobs[job].charge.Credits?
  {
    var row, tenant := db.jobs[job], db.tenants[scope.tenant];
    var wallet := Returned(tenant.wallet, row.charge.consumed);
    && after.now == db.now && after.plan == db.plan
    && after.jobs == db.jobs[job := Job(scope, status, None, None, row.charge, retry, None)]
    && after.tenants == db.tenants[scope.tenant := tenant.(wallet := wallet)]
    && after.ledger == db.ledger["schedule-credit-refund-" + job :=
         LedgerRow(scope.tenant, wallet.balance - tenant.wallet.balance, wallet.debt - tenant.wallet.debt,
                   "Schedule generation refund (" + job + ")", Some(wallet.balance), wallet.debt)]
  }

  lemma RefundInFields(db: Db, scope: Scope, job: string, status: Status, retry: int)
    requires job in db.jobs && db.jobs[job].scope == scope && scope.tenant in db.tenants && db.jobs[job].charge.Credits?
    requires 0 < db.jobs[job].charge.consumed && RefundId(job) !in db.ledger
    requires 0 <= db.tenants[scope.tenant].wallet.balance && 0 <= db.tenants[scope.tenant].wallet.debt
    requires WalletTakes(db, job)
    ensures FailureStored(db, Refund(db, job, TerminalRow(db.jobs[job], status, retry, None)).0, scope, job, status, retry)
  {
    SettleInFields(db.tenants[scope.tenant].wallet, db.ledger, scope.tenant, db.jobs[job].charge.consumed, RefundReason(job), RefundId(job));
  }

  /** A failure that can be stored is stored with its own status and retry count, beside the refund row and the new wallet. */
  lemma FailureInFields(s: History.State, scope: Scope, job: string, status: Status, retry: int, token: Option<Token>)
    requires History.Inv(s) && (status == Failed || status == DeadLettered)
    requires MayFail(s.db, scope, job, token)
    ensures s.db.jobs[job].charge.Credits? && scope.tenant in s.db.tenants
    ensures WalletTakes(s.db, job) ==>
              FailureStored(s.db, Terminalize(s.db, scope, job, status, retry, token).0, scope, job, status, retry)
  {
    assert History.RowOk(s, job);
    assert History.TenantOk(s, scope.tenant);
    if WalletTakes(s.db, job) {
      RefundInFields(s.db, scope, job, status, retry);
    }
  }

  /** The retry mark takes effect on a job of the same schedule that has not ended and that the caller may change. */
  lemma MarkInFields(db: Db, scope: Scope, job: string, retry: int, token: Option<Token>)
    ensures var after := MarkRetrying(db, scope, job, retry, token);
            if job in db.jobs && db.jobs[job].scope.tenant == scope.tenant && db.jobs[job].scope.schedule == scope.schedule
               && !Ended(db.jobs[job].status) && Rightful(db.jobs[job], token, db.now)
            then after == db.(jobs := db.jobs[job := Job(db.jobs[job].scope, Retrying, None, None, db.jobs[job].charge, retry, None)])
            else after == db
  {
  }

  // ---- commit ----

  /** The tenant is served, and the draft is still the one that was queued: same place, zone and revision, still a draft. */
  predicate DraftStands(db: Db, p: SolvePayload) {
    && Served(db, p.scope.tenant)
    && p.scope.location in db.plan.locations && p.scope.schedule in db.plan.schedules
    && db.plan.locations[p.scope.location] == Location(p.scope.tenant, p.timezone, false)
    && db.plan.schedules[p.scope.schedule] == Schedule(p.scope.tenant, p.scope.location, true, false, p.draftRevision)
  }

  /** Everyone queued for the schedule is still there and schedulable, and nobody else was scheduled. */
  predicate StaffStands(db: Db, p: SolvePayload, solved: seq<Shift>) {
    && (forall id :: id in p.staff ==> id in db.plan.members && db.plan.members[id] == Member(p.scope.tenant, true))
    && (forall i :: 0 <= i < |solved| ==> solved[i].staff in p.staff)
  }

  predicate InDraft(db: Db, p: SolvePayload, id: Id) {
    && id in db.plan.shifts && !db.plan.shifts[id].deleted
    && db.plan.shifts[id].scope.tenant == p.scope.tenant && db.plan.shifts[id].scope.schedule == p.scope.schedule
  }

  /** The draft's live shifts are those that were queued, none changed since. */
  ghost predicate SnapshotStands(db: Db, p: SolvePayload) {
    && (forall id :: InDraft(db, p, id) <==> id in p.snapshot)
    && (forall id :: id in p.snapshot && InDraft(db, p, id) ==> db.plan.shifts[id].updatedAt == p.snapshot[id])
  }

  lemma SnapshotInFields(db: Db, p: SolvePayload)
    ensures LiveSnapshot(db.plan, p.scope) == p.snapshot <==> SnapshotStands(db, p)
  {
    var live := LiveSnapshot(db.plan, p.scope);
    assert forall id :: id in live <==> InDraft(db, p, id);
    if SnapshotStands(db, p) {
      assert live.Keys == p.snapshot.Keys;
      assert forall id :: id in live ==> live[id] == p.snapshot[id];
    }
  }

  /** Why a commit is refused for good: the draft, the staff or the snapshot changed, or the job has failed. */
  ghost predicate CommitBarred(db: Db, p: SolvePayload, solved: seq<Shift>, job: string, token: Option<Token>) {
    || !DraftStands(db, p) || !Found(db, p.scope, job)
    || db.jobs[job].status == Failed || db.jobs[job].status == DeadLettered
    || (db.jobs[job].status != Succeeded && token.Some? && db.jobs[job].token == token
        && (!StaffStands(db, p, solved) || !SnapshotStands(db, p)))
  }

  lemma CommitOutcome(db: Db, p: SolvePayload, solved: seq<Shift>, job: string, retry: int, token: Option<Token>)
    requires job in db.jobs ==> Provenance(db, job)
    requires DraftUnchanged(db, p) <==> DraftStands(db, p)
    requires StaffKnown(db, p, solved) <==> StaffStands(db, p, solved)
    requires LiveSnapshot(db.plan, p.scope) == p.snapshot <==> SnapshotStands(db, p)
    ensures var outcome := Commit(db, p, solved, job, retry, token).1;
            var barred := CommitBarred(db, p, solved, job, token);
            && (outcome == NonRetryable <==> barred)
            && (outcome == OwnershipLost <==> !barred && !Ended(db.jobs[job].status) && (token == None || db.jobs[job].token != token))
            && (outcome == Retryable <==>
                  !barred && !Ended(db.jobs[job].status) && token.Some? && db.jobs[job].token == token && p.draftRevision == MAX_INTEGER)
            && (outcome == Done || outcome == NonRetryable || outcome == OwnershipLost || outcome == Retryable)
  {
  }

  /** A commit that is not barred finds the job its own, already done, or somebody else's. */
  lemma CommitInFields(s: History.State, p: SolvePayload, solved: seq<Shift>, job: string, retry: int, token: Option<Token>)
    requires History.Inv(s)
    ensures var outcome := Commit(s.db, p, solved, job, retry, token).1;
            var barred := CommitBarred(s.db, p, solved, job, token);
            && (outcome == NonRetryable <==> barred)
            && (outcome == OwnershipLost <==> !barred && !Ended(s.db.jobs[job].status) && (token == None || s.db.jobs[job].token != token))
            && (outcome == Retryable <==>
                  !barred && !Ended(s.db.jobs[job].status) && token.Some? && s.db.jobs[job].token == token && p.draftRevision == MAX_INTEGER)
            && (outcome == Done || outcome == NonRetryable || outcome == OwnershipLost || outcome == Retryable)
  {
    assert job in s.db.jobs ==> History.RowOk(s, job);
    SnapshotInFields(s.db, p);
    DraftInFields(s.db, p);
    StaffInFields(s.db, p, solved);
    CommitOutcome(s.db, p, solved, job, retry, token);
  }

  /** A commit that is carried out changes its own job row and the plan, and nothing else; any other changes nothing. */
  lemma CommitRowInFields(db: Db, p: SolvePayload, solved: seq<Shift>, job: string, retry: int, token: Option<Token>)
    ensures var (after, outcome) := Commit(db, p, solved, job, retry, token);
            && (outcome == Done ==> job in db.jobs)
            && if outcome == Done && db.jobs[job].status != Succeeded
               then after == db.(plan := after.plan,
                                 jobs := db.jobs[job := Job(p.scope, Succeeded, None, None, db.jobs[job].charge, retry, Some(|solved|))])
               else after == db
  {
  }

  lemma DraftInFields(db: Db, p: SolvePayload)
    ensures DraftUnchanged(db, p) <==> DraftStands(db, p)
  {
  }

  lemma StaffInFields(db: Db, p: SolvePayload, solved: seq<Shift>)
    ensures StaffKnown(db, p, solved) <==> StaffStands(db, p, solved)
  {
  }

  // ---- the proof of a charge ----

  /** The document of a charge, and the one ledger row that proves it was taken. */
  predicate DebitProven(db: Db, job: string)
    requires job in db.jobs
  {
    var row, id := db.jobs[job], "schedule-credit-" + job;
    && row.charge.Credits? && row.charge.consumed > 0 && row.charge.newBalance >= 0
    && row.charge.consumed + row.charge.newBalance <= MAX_INTEGER
    && id in db.ledger
    && db.ledger[id] == LedgerRow(row.scope.tenant, -row.charge.consumed, 0, "Schedule generation (" + job + ")", Some(row.charge.newBalance), 0)
  }

  /** A failed job has its one refund row, worth the charge in credit and repaid debt together; any other has none. */
  predicate RefundProven(db: Db, job: string)
    requires job in db.jobs && db.jobs[job].charge.Credits?
  {
    var row, id := db.jobs[job], "schedule-credit-refund-" + job;
    if row.status == Failed || row.status == DeadLettered then
      && id in db.ledger
      && db.ledger[id].tenant == row.scope.tenant && db.ledger[id].reason == "Schedule generation refund (" + job + ")"
      && db.ledger[id].amount >= 0 && db.ledger[id].debtAmount <= 0
      && db.ledger[id].amount - db.ledger[id].debtAmount == row.charge.consumed
      && db.ledger[id].debtAfter >= 0 && db.ledger[id].balanceAfter.Some? && db.ledger[id].balanceAfter.value >= 0
    else id !in db.ledger
  }

  /** What the provenance check asks of the rows. */
  lemma ProvenanceInFields(db: Db, job: string)
    requires job in db.jobs
    ensures Provenance(db, job) <==> DebitProven(db, job) && RefundProven(db, job)
  {
    assert DebitId(job) == "schedule-credit-" + job && RefundId(job) == "schedule-credit-refund-" + job;
  }
}
