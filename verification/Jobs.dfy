/**
 The database transactions of the schedule-solve job protocol. Each one locks
 its rows before it reads them, so each is one atomic step on a `Db` value and
 either returns the committed state or, on any error, the state it started from.
 */
module Jobs {
  import opened Results
  import opened Credits
  import opened Shifts

  datatype Status = Queued | Running | Retrying | Succeeded | Failed | DeadLettered

  predicate Terminal(status: Status) {
    status.Succeeded? || status.Failed? || status.DeadLettered?
  }

  predicate Refunding(status: Status) {
    status.Failed? || status.DeadLettered?
  }

  type Token = nat

  datatype Job = Job(
    scope: Scope,
    status: Status,
    token: Option<Token>,
    lease: Option<int>,
    charge: Charge,
    retryCount: int,
    resultShifts: Option<int>)

  datatype Tenant = Tenant(active: bool, paidPlan: bool, subscribed: bool, paidThrough: Option<int>, wallet: Wallet)

  datatype Location = Location(tenant: string, timezone: string, deleted: bool)
  datatype Schedule = Schedule(tenant: string, location: string, draft: bool, deleted: bool, revision: int)
  datatype Member = Member(tenant: string, schedulable: bool)
  datatype ShiftRow = ShiftRow(scope: Scope, user: string, start: int, end: int, role: string, updatedAt: int, deleted: bool)
  datatype BreakRow = BreakRow(shift: Id, kind: string, start: int, end: int, paid: bool)

  datatype Plan = Plan(
    locations: map<string, Location>,
    schedules: map<string, Schedule>,
    members: map<string, Member>,
    shifts: map<Id, ShiftRow>,
    breaks: map<Id, BreakRow>)

  datatype Db = Db(now: int, tenants: map<string, Tenant>, ledger: Ledger, jobs: map<string, Job>, plan: Plan)

  /** The fields of a solve payload that the transactions read. */
  datatype SolvePayload = SolvePayload(
    scope: Scope,
    timezone: string,
    draftRevision: int,
    snapshot: map<Id, int>,
    staff: seq<string>)

  /** How a transaction ended; every error other than the named ones is retryable. */
  datatype Outcome = Claimed | Busy | AlreadyTerminal | Done | NonRetryable | Retryable | OwnershipLost

  // ---- what the guards read ----

  predicate Entitled(db: Db, tenant: string) {
    && tenant in db.tenants
    && var t := db.tenants[tenant];
    && t.active && t.paidPlan && t.subscribed
    && t.paidThrough.Some? && t.paidThrough.value > db.now
  }

  predicate HasRow(db: Db, scope: Scope, job: string) {
    job in db.jobs && db.jobs[job].scope == scope
  }

  predicate LeaseLive(row: Job, now: int) {
    row.lease.Some? && row.lease.value > now
  }

  predicate LeaseExpired(row: Job, now: int) {
    row.lease.Some? && row.lease.value <= now
  }

  /** A step with a token needs that very token; one without needs an unowned or expired job. */
  predicate MayMutate(row: Job, token: Option<Token>, now: int) {
    if token.None? then row.token.None? || LeaseExpired(row, now) else row.token == token
  }

  /** The refund side of the provenance proof, by job status. */
  predicate RefundMatchesStatus(db: Db, job: string)
    requires job in db.jobs && db.jobs[job].charge.Credits?
  {
    var row := db.jobs[job];
    if Refunding(row.status)
    then ExactRefund(db.ledger, row.scope.tenant, job, row.charge.consumed)
    else RefundId(job) !in db.ledger
  }

  predicate Provenance(db: Db, job: string)
    requires job in db.jobs
  {
    var row := db.jobs[job];
    && ValidCharge(row.charge)
    && ExactDebit(db.ledger, row.scope.tenant, job, row.charge)
    && RefundMatchesStatus(db, job)
  }

  predicate OutcomeProvenance(db: Db, job: string)
    requires job in db.jobs
  {
    var row := db.jobs[job];
    && ValidCharge(row.charge)
    && SameDebit(db.ledger, row.scope.tenant, job, row.charge)
    && RefundMatchesStatus(db, job)
  }

  // ---- claim ----

  function ClaimedRow(row: Job, retry: int, token: Token, until: int): Job {
    row.(status := Running, retryCount := retry, token := Some(token), lease := Some(until))
  }

  function Claim(db: Db, scope: Scope, job: string, retry: int, token: Token, leaseLength: int): (Db, Outcome) {
    if !HasRow(db, scope, job) || !Provenance(db, job) then
      (db, NonRetryable)
    else if Terminal(db.jobs[job].status) then
      (db, AlreadyTerminal)
    else if !Entitled(db, scope.tenant) then
      (db, NonRetryable)
    else if db.jobs[job].status.Running? && LeaseLive(db.jobs[job], db.now) && db.jobs[job].token != Some(token) then
      (db, Busy)
    else
      (db.(jobs := db.jobs[job := ClaimedRow(db.jobs[job], retry, token, db.now + leaseLength)]), Claimed)
  }

  // ---- terminal states with refund, and the retry mark ----

  function TerminalRow(row: Job, status: Status, retry: int, resultShifts: Option<int>): Job {
    row.(status := status, retryCount := retry, resultShifts := resultShifts, token := None, lease := None)
  }

  function Terminalize(db: Db, scope: Scope, job: string, status: Status, retry: int, token: Option<Token>): (Db, Outcome)
    requires Refunding(status)
  {
    if !HasRow(db, scope, job) then
      (db, OwnershipLost)
    else if !OutcomeProvenance(db, job) then
      (db, Retryable)
    else if Terminal(db.jobs[job].status) then
      (db, Done)
    else if !Provenance(db, job) || !MayMutate(db.jobs[job], token, db.now) then
      (db, OwnershipLost)
    else
      Refund(db, job, TerminalRow(db.jobs[job], status, retry, None))
  }

  /** Stores the terminal row and settles its refund, or neither. */
  function Refund(db: Db, job: string, row: Job): (Db, Outcome)
    requires row.charge.Credits?
  {
    var tenant := row.scope.tenant;
    if tenant !in db.tenants then
      (db, Retryable)
    else
      var s := Settle(db.tenants[tenant].wallet, db.ledger, tenant, row.charge.consumed, RefundReason(job), RefundId(job));
      if s.Settled? then
        (db.(jobs := db.jobs[job := row],
             tenants := db.tenants[tenant := db.tenants[tenant].(wallet := s.wallet)],
             ledger := db.ledger[RefundId(job) := s.row]), Done)
      else
        (db, Retryable)
  }

  /** The mark does not ask for the location. */
  predicate SameSchedule(a: Scope, b: Scope) { a.tenant == b.tenant && a.schedule == b.schedule }

  function MarkRetrying(db: Db, scope: Scope, job: string, retry: int, token: Option<Token>): Db {
    if job in db.jobs && SameSchedule(db.jobs[job].scope, scope) && !Terminal(db.jobs[job].status) && MayMutate(db.jobs[job], token, db.now) then
      db.(jobs := db.jobs[job := TerminalRow(db.jobs[job], Retrying, retry, None)])
    else
      db
  }

  // ---- commit of a solved schedule ----

  predicate IsLive(row: ShiftRow, scope: Scope) {
    row.scope.tenant == scope.tenant && row.scope.schedule == scope.schedule && !row.deleted
  }

  /** The live draft shifts with their revision keys. */
  function LiveSnapshot(plan: Plan, scope: Scope): map<Id, int> {
    map id | id in plan.shifts && IsLive(plan.shifts[id], scope) :: plan.shifts[id].updatedAt
  }

  predicate KnownMember(plan: Plan, tenant: string, id: string) {
    id in plan.members && plan.members[id].tenant == tenant && plan.members[id].schedulable
  }

  function TargetIds(solved: seq<Shift>): set<Id> {
    set i | 0 <= i < |solved| :: solved[i].id
  }

  function SolvedRow(scope: Scope, now: int, shift: Shift): ShiftRow {
    ShiftRow(scope, shift.staff, shift.start, shift.end, shift.role, now, false)
  }

  function SolvedBreakRow(shift: Id, b: Break): BreakRow {
    BreakRow(shift, b.kind, b.start, b.end, b.paid)
  }

  /** Upserts shifts in order; a later row with the same id replaces an earlier one. */
  function PutShifts(rows: map<Id, ShiftRow>, scope: Scope, now: int, solved: seq<Shift>): map<Id, ShiftRow> {
    if solved == [] then rows
    else
      var last := solved[|solved| - 1];
      PutShifts(rows, scope, now, solved[..|solved| - 1])[last.id := SolvedRow(scope, now, last)]
  }

  function PutBreaks(rows: map<Id, BreakRow>, shift: Id, breaks: seq<Break>): map<Id, BreakRow> {
    if breaks == [] then rows
    else
      var last := breaks[|breaks| - 1];
      PutBreaks(rows, shift, breaks[..|breaks| - 1])[last.id := SolvedBreakRow(shift, last)]
  }

  function PutAllBreaks(rows: map<Id, BreakRow>, solved: seq<Shift>): map<Id, BreakRow> {
    if solved == [] then rows
    else
      var last := solved[|solved| - 1];
      PutBreaks(PutAllBreaks(rows, solved[..|solved| - 1]), last.id, last.breaks)
  }

  function DeleteBreaksOf(rows: map<Id, BreakRow>, shifts: set<Id>): map<Id, BreakRow> {
    map id | id in rows && rows[id].shift !in shifts :: rows[id]
  }

  function SoftDelete(rows: map<Id, ShiftRow>, now: int, ids: set<Id>): map<Id, ShiftRow> {
    map id | id in rows :: if id in ids then rows[id].(deleted := true, updatedAt := now) else rows[id]
  }

  function ReplaceDraft(plan: Plan, scope: Scope, now: int, solved: seq<Shift>): Plan {
    var live := LiveSnapshot(plan, scope).Keys;
    var target := TargetIds(solved);
    plan.(
      shifts := PutShifts(SoftDelete(plan.shifts, now, live - target), scope, now, solved),
      breaks := PutAllBreaks(DeleteBreaksOf(DeleteBreaksOf(plan.breaks, live - target), target), solved))
  }

  /** The location and draft guards, in the order the transaction applies them. */
  predicate DraftUnchanged(db: Db, p: SolvePayload) {
    && Entitled(db, p.scope.tenant)
    && p.scope.location in db.plan.locations
    && (var l := db.plan.locations[p.scope.location];
        l.tenant == p.scope.tenant && !l.deleted && l.timezone == p.timezone)
    && p.scope.schedule in db.plan.schedules
    && (var s := db.plan.schedules[p.scope.schedule];
        && s.tenant == p.scope.tenant && s.location == p.scope.location && !s.deleted
        && s.draft && s.revision == p.draftRevision)
  }

  predicate StaffKnown(db: Db, p: SolvePayload, solved: seq<Shift>) {
    && (forall id <- p.staff :: KnownMember(db.plan, p.scope.tenant, id))
    && (forall s <- solved :: s.staff in p.staff)
  }

  function Commit(db: Db, p: SolvePayload, solved: seq<Shift>, job: string, retry: int, token: Option<Token>): (Db, Outcome) {
    if !DraftUnchanged(db, p) || !HasRow(db, p.scope, job) || !Provenance(db, job) then
      (db, NonRetryable)
    else if db.jobs[job].status.Succeeded? then
      (db, Done)
    else if Terminal(db.jobs[job].status) then
      (db, NonRetryable)
    else if token.None? || db.jobs[job].token != token then
      (db, OwnershipLost)
    else if !StaffKnown(db, p, solved) || LiveSnapshot(db.plan, p.scope) != p.snapshot then
      (db, NonRetryable)
    else if p.draftRevision == MAX_INTEGER then
      (db, Retryable)
    else
      (Committed(db, p, solved, job, retry), Done)
  }

  function Committed(db: Db, p: SolvePayload, solved: seq<Shift>, job: string, retry: int): Db
    requires job in db.jobs && p.scope.schedule in db.plan.schedules
  {
    var plan := ReplaceDraft(db.plan, p.scope, db.now, solved);
    var schedule := plan.schedules[p.scope.schedule];
    db.(
      plan := plan.(schedules := plan.schedules[p.scope.schedule := schedule.(revision := schedule.revision + 1)]),
      jobs := db.jobs[job := TerminalRow(db.jobs[job], Succeeded, retry, Some(|solved|))])
  }
}
