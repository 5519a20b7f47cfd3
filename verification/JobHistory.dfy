/**
 Every interleaving of the job transactions, over any number of tenants, jobs
 and workers, with the clock and the rest of the application moving in between.
 A worker may call any transaction at any time with any token; the only thing
 assumed of workers is that a claim brings a token nobody has used before.
 */
module JobHistory {
  import opened Results
  import opened Credits
  import opened Shifts
  import opened Jobs

  datatype Step =
    | ClaimStep(scope: Scope, job: string, retry: int, newToken: Token, leaseLength: int)
    | CommitStep(payload: SolvePayload, solved: seq<Shift>, job: string, retry: int, token: Option<Token>)
    | TerminalizeStep(scope: Scope, job: string, status: Status, retry: int, token: Option<Token>)
    | RetryStep(scope: Scope, job: string, retry: int, token: Option<Token>)
    | Enqueue(job: string, scope: Scope, consumed: int)
    | OtherCredit(tenant: string, id: string, row: LedgerRow, wallet: Wallet)
    | Subscription(tenant: string, active: bool, paidPlan: bool, subscribed: bool, paidThrough: Option<int>)
    | EditPlan(plan: Plan)
    | Tick(micros: nat)

  /** `nextToken` bounds the tokens in use; `base` is what each tenant would hold had no job been charged. */
  datatype State = State(db: Db, nextToken: Token, base: map<string, int>)

  ghost predicate Enabled(s: State, step: Step) {
    match step
    case ClaimStep(_, _, _, newToken, leaseLength) => s.nextToken <= newToken && 0 < leaseLength
    case TerminalizeStep(_, _, status, _, _) => Refunding(status)
    case Enqueue(job, scope, consumed) =>
      && job !in s.db.jobs
      && NoIdClash(s.db.jobs.Keys + {job})
      && DebitId(job) !in s.db.ledger && RefundId(job) !in s.db.ledger
      && scope.tenant in s.db.tenants
      && var wallet := s.db.tenants[scope.tenant].wallet;
      && wallet.debt == 0
      && ValidCharge(Credits(consumed, wallet.balance - consumed))
    case OtherCredit(tenant, id, row, wallet) =>
      && tenant in s.db.tenants
      && 0 <= wallet.balance && 0 <= wallet.debt
      && id !in s.db.ledger
      && forall job :: id != DebitId(job)
    case Subscription(tenant, _, _, _, _) => tenant in s.db.tenants
    case _ => true
  }

  function EnqueueDb(db: Db, job: string, scope: Scope, consumed: int): Db
    requires scope.tenant in db.tenants
  {
    var t := db.tenants[scope.tenant];
    var balance := t.wallet.balance - consumed;
    db.(jobs := db.jobs[job := Job(scope, Queued, None, None, Credits(consumed, balance), 0, None)],
        tenants := db.tenants[scope.tenant := t.(wallet := Wallet(balance, t.wallet.debt))],
        ledger := db.ledger[DebitId(job) := LedgerRow(scope.tenant, -consumed, 0, DebitReason(job), Some(balance), 0)])
  }

  ghost function Apply(s: State, step: Step): State
    requires Enabled(s, step)
  {
    match step
    case ClaimStep(scope, job, retry, newToken, leaseLength) =>
      s.(db := Claim(s.db, scope, job, retry, newToken, leaseLength).0, nextToken := newToken + 1)
    case CommitStep(payload, solved, job, retry, token) =>
      s.(db := Commit(s.db, payload, solved, job, retry, token).0)
    case TerminalizeStep(scope, job, status, retry, token) =>
      s.(db := Terminalize(s.db, scope, job, status, retry, token).0)
    case RetryStep(scope, job, retry, token) =>
      s.(db := MarkRetrying(s.db, scope, job, retry, token))
    case Enqueue(job, scope, consumed) =>
      s.(db := EnqueueDb(s.db, job, scope, consumed))
    case OtherCredit(tenant, id, row, wallet) =>
      var t := s.db.tenants[tenant];
      s.(db := s.db.(tenants := s.db.tenants[tenant := t.(wallet := wallet)], ledger := s.db.ledger[id := row]),
         base := s.base[tenant := (if tenant in s.base then s.base[tenant] else 0) + wallet.Net() - t.wallet.Net()])
    case Subscription(tenant, active, paidPlan, subscribed, paidThrough) =>
      s.(db := s.db.(tenants := s.db.tenants[tenant := Tenant(active, paidPlan, subscribed, paidThrough, s.db.tenants[tenant].wallet)]))
    case EditPlan(plan) => s.(db := s.db.(plan := plan))
    case Tick(micros) => s.(db := s.db.(now := s.db.now + micros))
  }

  // ---- what a tenant has spent ----

  /** The credits a job has cost its tenant so far: nothing once it was refunded. */
  function Cost(row: Job, tenant: string): int {
    if row.scope.tenant == tenant && !Refunding(row.status) && row.charge.Credits? then row.charge.consumed else 0
  }

  ghost function Spent(jobs: map<string, Job>, tenant: string): int
    decreases |jobs|
  {
    if jobs == map[] then 0
    else
      var id :| id in jobs;
      Cost(jobs[id], tenant) + Spent(jobs - {id}, tenant)
  }

  /** The sum does not depend on which job is taken first. */
  lemma {:induction false} SpentTakes(jobs: map<string, Job>, tenant: string, id: string)
    requires id in jobs
    ensures Spent(jobs, tenant) == Cost(jobs[id], tenant) + Spent(jobs - {id}, tenant)
    decreases |jobs|
  {
    var first :| first in jobs && Spent(jobs, tenant) == Cost(jobs[first], tenant) + Spent(jobs - {first}, tenant);
    if first != id {
      SpentTakes(jobs - {first}, tenant, id);
      SpentTakes(jobs - {id}, tenant, first);
      assert jobs - {first} - {id} == jobs - {id} - {first};
    }
  }

  lemma SpentAfterPut(jobs: map<string, Job>, tenant: string, id: string, row: Job)
    ensures Spent(jobs[id := row], tenant)
            == Spent(jobs, tenant) + Cost(row, tenant) - (if id in jobs then Cost(jobs[id], tenant) else 0)
  {
    SpentTakes(jobs[id := row], tenant, id);
    assert jobs[id := row] - {id} == jobs - {id};
    if id in jobs {
      SpentTakes(jobs, tenant, id);
    } else {
      assert jobs - {id} == jobs;
    }
  }

  // ---- the invariant ----

  /** What holds of each job row by itself. */
  ghost predicate RowOk(s: State, job: string)
    requires job in s.db.jobs
  {
    var row := s.db.jobs[job];
    && row.scope.tenant in s.db.tenants
    && Provenance(s.db, job)
    && (row.token.Some? <==> row.status.Running?)
    && (row.lease.Some? <==> row.status.Running?)
    && (row.token.Some? ==> row.token.value < s.nextToken)
  }

  ghost predicate TenantOk(s: State, tenant: string)
    requires tenant in s.db.tenants
  {
    var wallet := s.db.tenants[tenant].wallet;
    && 0 <= wallet.balance && 0 <= wallet.debt
    && tenant in s.base
    && wallet.Net() == s.base[tenant] - Spent(s.db.jobs, tenant)
  }

  ghost predicate TokensApart(jobs: map<string, Job>) {
    forall a, b :: a in jobs && b in jobs && a != b && jobs[a].token.Some? ==> jobs[a].token != jobs[b].token
  }

  ghost predicate Inv(s: State) {
    && NoIdClash(s.db.jobs.Keys)
    && TokensApart(s.db.jobs)
    && (forall job :: job in s.db.jobs ==> RowOk(s, job))
    && (forall tenant :: tenant in s.db.tenants ==> TenantOk(s, tenant))
  }

  /** A run may start from any set of freshly queued, properly charged jobs. */
  ghost predicate Init(s: State) {
    && NoIdClash(s.db.jobs.Keys)
    && (forall job :: job in s.db.jobs ==>
          && s.db.jobs[job].scope.tenant in s.db.tenants
          && s.db.jobs[job].status == Queued && s.db.jobs[job].token.None? && s.db.jobs[job].lease.None?
          && Provenance(s.db, job))
    && (forall tenant :: tenant in s.db.tenants ==> TenantOk(s, tenant))
  }

  /** A row keeps its standing while its own fields and ledger rows stay as they are. */
  lemma RowStays(s: State, t: State, job: string)
    requires job in s.db.jobs && RowOk(s, job)
    requires job in t.db.jobs && t.db.jobs[job] == s.db.jobs[job]
    requires s.nextToken <= t.nextToken && s.db.tenants.Keys <= t.db.tenants.Keys
    requires DebitId(job) in t.db.ledger && t.db.ledger[DebitId(job)] == s.db.ledger[DebitId(job)]
    requires RefundId(job) in t.db.ledger <==> RefundId(job) in s.db.ledger
    requires RefundId(job) in s.db.ledger ==> t.db.ledger[RefundId(job)] == s.db.ledger[RefundId(job)]
    ensures RowOk(t, job)
  {
  }

  lemma TokensStayApart(s: State, jobs: map<string, Job>, job: string, row: Job)
    requires Inv(s) && jobs == s.db.jobs[job := row]
    requires row.token.Some? ==> s.nextToken <= row.token.value
    ensures TokensApart(jobs)
  {
    forall a, b | a in jobs && b in jobs && a != b && jobs[a].token.Some?
      ensures jobs[a].token != jobs[b].token
    {
      assert a in s.db.jobs ==> RowOk(s, a);
      assert b in s.db.jobs ==> RowOk(s, b);
    }
  }

  lemma BooksStay(s: State, t: State, job: string, row: Job, tenant: string)
    requires job in s.db.jobs && tenant in s.db.tenants && TenantOk(s, tenant)
    requires t.db.jobs == s.db.jobs[job := row]
    requires t.db.tenants == s.db.tenants && t.base == s.base
    requires Cost(row, tenant) == Cost(s.db.jobs[job], tenant)
    ensures TenantOk(t, tenant)
  {
    SpentAfterPut(s.db.jobs, tenant, job, row);
  }

  /** Replacing one live job row without touching money keeps everyone's books. */
  lemma PutRowKeepsInv(s: State, t: State, job: string, row: Job)
    requires Inv(s) && job in s.db.jobs
    requires t.db.jobs == s.db.jobs[job := row]
    requires t.db.tenants == s.db.tenants && t.db.ledger == s.db.ledger && t.base == s.base
    requires s.nextToken <= t.nextToken
    requires row.scope == s.db.jobs[job].scope && row.charge == s.db.jobs[job].charge
    requires !Refunding(row.status) && !Refunding(s.db.jobs[job].status)
    requires (row.token.Some? <==> row.status.Running?) && (row.lease.Some? <==> row.status.Running?)
    requires row.token.Some? ==> s.nextToken <= row.token.value < t.nextToken
    ensures Inv(t)
  {
    forall j | j in t.db.jobs ensures RowOk(t, j) {
      assert RowOk(s, j);
      if j != job {
        RowStays(s, t, j);
      }
    }
    forall tenant | tenant in t.db.tenants ensures TenantOk(t, tenant) {
      BooksStay(s, t, job, row, tenant);
    }
    TokensStayApart(s, t.db.jobs, job, row);
    assert t.db.jobs.Keys == s.db.jobs.Keys;
  }

  lemma RefundKeepsRows(s: State, job: string, row: Job, j: string)
    requires Inv(s) && job in s.db.jobs && j in s.db.jobs
    requires !Terminal(s.db.jobs[job].status) && Refunding(row.status)
    requires row.scope == s.db.jobs[job].scope && row.charge == s.db.jobs[job].charge && row.charge.Credits?
    requires row.token.None? && row.lease.None?
    requires Refund(s.db, job, row).1.Done?
    ensures RowOk(s.(db := Refund(s.db, job, row).0), j)
  {
    assert RowOk(s, job) && RowOk(s, j);
    IdsClashExactly(j, job);
    if j != job {
      IdsInjective(j, job);
      RowStays(s, s.(db := Refund(s.db, job, row).0), j);
    }
  }

  lemma RefundKeepsBooks(s: State, job: string, row: Job, tenant: string)
    requires job in s.db.jobs && tenant in s.db.tenants && TenantOk(s, tenant)
    requires !Terminal(s.db.jobs[job].status) && Refunding(row.status)
    requires row.scope == s.db.jobs[job].scope && row.charge == s.db.jobs[job].charge && row.charge.Credits?
    requires Refund(s.db, job, row).1.Done?
    ensures TenantOk(s.(db := Refund(s.db, job, row).0), tenant)
  {
    SpentAfterPut(s.db.jobs, tenant, job, row);
  }

  /** A refund stores the terminal state, the ledger row and the wallet together. */
  lemma RefundKeepsInv(s: State, job: string, row: Job)
    requires Inv(s) && job in s.db.jobs
    requires !Terminal(s.db.jobs[job].status) && Refunding(row.status)
    requires row.scope == s.db.jobs[job].scope && row.charge == s.db.jobs[job].charge && row.charge.Credits?
    requires row.token.None? && row.lease.None?
    ensures Inv(s.(db := Refund(s.db, job, row).0))
  {
    var t := s.(db := Refund(s.db, job, row).0);
    if Refund(s.db, job, row).1.Done? {
      forall j | j in t.db.jobs ensures RowOk(t, j) {
        RefundKeepsRows(s, job, row, j);
      }
      forall u | u in t.db.tenants ensures TenantOk(t, u) {
        RefundKeepsBooks(s, job, row, u);
      }
      TokensStayApart(s, t.db.jobs, job, row);
      assert t.db.jobs.Keys == s.db.jobs.Keys;
    }
  }

  lemma EnqueueKeepsRow(s: State, step: Step, j: string)
    requires step.Enqueue? && Enabled(s, step)
    requires j == step.job || (j in s.db.jobs && RowOk(s, j))
    ensures RowOk(Apply(s, step), j)
  {
    IdsClashExactly(step.job, j);
    IdsClashExactly(j, step.job);
    IdsInjective(j, step.job);
  }

  lemma EnqueueKeepsBooks(s: State, step: Step, tenant: string)
    requires step.Enqueue? && Enabled(s, step)
    requires tenant in s.db.tenants && TenantOk(s, tenant)
    ensures tenant in Apply(s, step).db.tenants && TenantOk(Apply(s, step), tenant)
  {
    SpentAfterPut(s.db.jobs, tenant, step.job, Apply(s, step).db.jobs[step.job]);
  }

  lemma EnqueueKeepsInv(s: State, step: Step)
    requires Inv(s) && step.Enqueue? && Enabled(s, step)
    ensures Inv(Apply(s, step))
  {
    var t := Apply(s, step);
    assert t.db.jobs.Keys == s.db.jobs.Keys + {step.job};
    forall j | j in t.db.jobs ensures RowOk(t, j) {
      EnqueueKeepsRow(s, step, j);
    }
    forall u | u in t.db.tenants ensures TenantOk(t, u) {
      EnqueueKeepsBooks(s, step, u);
    }
  }

  lemma OtherCreditKeepsRow(s: State, step: Step, j: string)
    requires step.OtherCredit? && Enabled(s, step)
    requires j in s.db.jobs && RowOk(s, j)
    ensures RowOk(Apply(s, step), j)
  {
    assert RefundId(j) == DebitId("refund-" + j);
  }

  lemma OtherCreditKeepsInv(s: State, step: Step)
    requires Inv(s) && step.OtherCredit? && Enabled(s, step)
    ensures Inv(Apply(s, step))
  {
    var t := Apply(s, step);
    assert t.db.jobs == s.db.jobs;
    forall j | j in t.db.jobs ensures RowOk(t, j) {
      OtherCreditKeepsRow(s, step, j);
    }
    forall u | u in t.db.tenants ensures TenantOk(t, u) {
      assert TenantOk(s, u);
    }
  }

  lemma TerminalizeKeepsInv(s: State, step: Step)
    requires Inv(s) && step.TerminalizeStep? && Enabled(s, step)
    ensures Inv(Apply(s, step))
  {
    if Apply(s, step).db != s.db {
      assert RowOk(s, step.job);
      RefundKeepsInv(s, step.job, TerminalRow(s.db.jobs[step.job], step.status, step.retry, None));
    }
  }

  lemma ClaimKeepsInv(s: State, step: Step)
    requires Inv(s) && step.ClaimStep? && Enabled(s, step)
    ensures Inv(Apply(s, step))
  {
    var t := Apply(s, step);
    if t.db != s.db {
      assert RowOk(s, step.job);
      PutRowKeepsInv(s, t, step.job, t.db.jobs[step.job]);
    } else {
      BooksAlone(s, t);
    }
  }

  lemma CommitKeepsInv(s: State, step: Step)
    requires Inv(s) && step.CommitStep? && Enabled(s, step)
    ensures Inv(Apply(s, step))
  {
    var t := Apply(s, step);
    if t.db != s.db {
      assert RowOk(s, step.job);
      PutRowKeepsInv(s, t, step.job, t.db.jobs[step.job]);
    }
  }

  lemma RetryKeepsInv(s: State, step: Step)
    requires Inv(s) && step.RetryStep? && Enabled(s, step)
    ensures Inv(Apply(s, step))
  {
    var t := Apply(s, step);
    if t.db != s.db {
      assert RowOk(s, step.job);
      PutRowKeepsInv(s, t, step.job, t.db.jobs[step.job]);
    }
  }

  /** Every enabled step, whoever takes it and with whatever token, keeps the invariant. */
  lemma StepKeepsInv(s: State, step: Step)
    requires Inv(s) && Enabled(s, step)
    ensures Inv(Apply(s, step))
  {
    match step {
      case Enqueue(_, _, _) => EnqueueKeepsInv(s, step);
      case OtherCredit(_, _, _, _) => OtherCreditKeepsInv(s, step);
      case TerminalizeStep(_, _, _, _, _) => TerminalizeKeepsInv(s, step);
      case ClaimStep(_, _, _, _, _) => ClaimKeepsInv(s, step);
      case CommitStep(_, _, _, _, _) => CommitKeepsInv(s, step);
      case RetryStep(_, _, _, _) => RetryKeepsInv(s, step);
      case Subscription(_, _, _, _, _) => BooksAlone(s, Apply(s, step));
      case EditPlan(_) => BooksAlone(s, Apply(s, step));
      case Tick(_) => BooksAlone(s, Apply(s, step));
    }
  }

  /** Nothing the invariant speaks of moved, except possibly the token bound. */
  lemma BooksAlone(s: State, t: State)
    requires Inv(s)
    requires t.db.jobs == s.db.jobs && t.db.ledger == s.db.ledger && t.base == s.base && s.nextToken <= t.nextToken
    requires t.db.tenants.Keys == s.db.tenants.Keys
    requires forall u :: u in s.db.tenants ==> t.db.tenants[u].wallet == s.db.tenants[u].wallet
    ensures Inv(t)
  {
    forall j | j in t.db.jobs ensures RowOk(t, j) {
      assert RowOk(s, j);
    }
    forall u | u in t.db.tenants ensures TenantOk(t, u) {
      assert TenantOk(s, u);
    }
  }

  /** No step removes a job. */
  lemma JobsPersist(s: State, step: Step, job: string)
    requires Enabled(s, step) && job in s.db.jobs
    ensures job in Apply(s, step).db.jobs
  {
  }

  lemma TokensOnlyGrow(s: State, step: Step)
    requires Enabled(s, step)
    ensures s.nextToken <= Apply(s, step).nextToken
  {
  }
}
