/**
 What the job transactions guarantee over whole runs: one refund exactly for
 failed jobs and balanced books, terminal states that never move, and stale
 workers that can no longer touch anything.
 */
module JobGuarantees {
  import opened Results
  import opened Credits
  import opened Shifts
  import opened Jobs
  import opened JobHistory

  ghost predicate Run(states: seq<State>, steps: seq<Step>) {
    && |states| == |steps| + 1
    && Init(states[0])
    && forall i :: 0 <= i < |steps| ==> TakesStep(states, steps, i)
  }

  ghost predicate TakesStep(states: seq<State>, steps: seq<Step>, i: int)
    requires 0 <= i < |steps| < |states|
  {
    Enabled(states[i], steps[i]) && states[i + 1] == Apply(states[i], steps[i])
  }

  lemma RunTakesStep(states: seq<State>, steps: seq<Step>, n: nat)
    requires Run(states, steps) && n < |steps|
    ensures Enabled(states[n], steps[n]) && states[n + 1] == Apply(states[n], steps[n])
  {
    assert TakesStep(states, steps, n);
  }

  lemma {:induction false} RunKeepsInv(states: seq<State>, steps: seq<Step>, i: nat)
    requires Run(states, steps) && i < |states|
    ensures Inv(states[i])
  {
    if i > 0 {
      RunKeepsInv(states, steps, i - 1);
      RunTakesStep(states, steps, i - 1);
      StepKeepsInv(states[i - 1], steps[i - 1]);
    }
  }

  // ---- exactly-once refunds and balanced books ----

  /** At every point of every run the refund row exists exactly for failed jobs and is worth the charge. */
  lemma RefundedExactlyWhenFailed(states: seq<State>, steps: seq<Step>, i: nat, job: string)
    requires Run(states, steps) && i < |states| && job in states[i].db.jobs
    ensures var db := states[i].db;
            var row := db.jobs[job];
            && row.charge.Credits?
            && (RefundId(job) in db.ledger <==> Refunding(row.status))
            && (Refunding(row.status) ==> ExactRefund(db.ledger, row.scope.tenant, job, row.charge.consumed))
            && ExactDebit(db.ledger, row.scope.tenant, job, row.charge)
  {
    RunKeepsInv(states, steps, i);
    assert RowOk(states[i], job);
  }

  /**
   The one demand on job ids is needed: when one job's id is "refund-" followed by
   the other's, no ledger can prove the charges of both jobs.
   */
  lemma ClashingJobsNeverBothProven(db: Db, a: string, b: string)
    requires a in db.jobs && b in db.jobs && a == "refund-" + b
    ensures !(Provenance(db, a) && Provenance(db, b))
  {
    IdsClashExactly(a, b);
  }

  /** Net wallet value is the uncharged base minus the charges of the jobs that did not fail. */
  lemma BooksBalance(states: seq<State>, steps: seq<Step>, i: nat, tenant: string)
    requires Run(states, steps) && i < |states| && tenant in states[i].db.tenants
    ensures tenant in states[i].base
    ensures states[i].db.tenants[tenant].wallet.Net() == states[i].base[tenant] - Spent(states[i].db.jobs, tenant)
  {
    RunKeepsInv(states, steps, i);
    assert TenantOk(states[i], tenant);
  }

  /** What the steps from `i` up to `k` moved on a tenant's account from outside the job protocol. */
  ghost function OutsideNet(states: seq<State>, steps: seq<Step>, i: nat, k: nat, tenant: string): int
    requires i <= k <= |steps| < |states|
    decreases k
  {
    if i == k then 0
    else
      OutsideNet(states, steps, i, k - 1, tenant)
      + if steps[k - 1].OtherCredit? && steps[k - 1].tenant == tenant && tenant in states[k - 1].db.tenants
        then steps[k - 1].wallet.Net() - states[k - 1].db.tenants[tenant].wallet.Net()
        else 0
  }

  /** The tenant's net credit and all that its jobs have cost. */
  ghost function Worth(s: State, tenant: string): int
    requires tenant in s.db.tenants
  {
    s.db.tenants[tenant].wallet.Net() + Spent(s.db.jobs, tenant)
  }

  lemma TenantsPersist(s: State, step: Step, tenant: string)
    requires Enabled(s, step) && tenant in s.db.tenants
    ensures tenant in Apply(s, step).db.tenants
  {
  }

  lemma BaseFollowsOutside(s: State, step: Step, tenant: string)
    requires Enabled(s, step) && tenant in s.base && tenant in s.db.tenants
    ensures tenant in Apply(s, step).base
    ensures Apply(s, step).base[tenant] - s.base[tenant] ==
            if step.OtherCredit? && step.tenant == tenant
            then step.wallet.Net() - s.db.tenants[tenant].wallet.Net()
            else 0
  {
  }

  lemma StepMovesWorth(s: State, step: Step, tenant: string)
    requires Inv(s) && Enabled(s, step) && tenant in s.db.tenants
    ensures tenant in Apply(s, step).db.tenants
    ensures Worth(Apply(s, step), tenant) - Worth(s, tenant) ==
            if step.OtherCredit? && step.tenant == tenant
            then step.wallet.Net() - s.db.tenants[tenant].wallet.Net()
            else 0
  {
    TenantsPersist(s, step, tenant);
    StepKeepsInv(s, step);
    assert TenantOk(s, tenant) && TenantOk(Apply(s, step), tenant);
    BaseFollowsOutside(s, step, tenant);
  }

  /** Between any two points of a run, net credit plus spending moves by exactly what was moved from outside. */
  lemma {:induction false} OutsideCreditExplainsAll(states: seq<State>, steps: seq<Step>, i: nat, k: nat, tenant: string)
    requires Run(states, steps) && i <= k < |states| && tenant in states[i].db.tenants
    ensures tenant in states[k].db.tenants
    ensures Worth(states[k], tenant) - Worth(states[i], tenant) == OutsideNet(states, steps, i, k, tenant)
    decreases k
  {
    if i < k {
      OutsideCreditExplainsAll(states, steps, i, k - 1, tenant);
      RunKeepsInv(states, steps, k - 1);
      RunTakesStep(states, steps, k - 1);
      StepMovesWorth(states[k - 1], steps[k - 1], tenant);
    }
  }

  lemma {:induction false} NoOutsideNet(states: seq<State>, steps: seq<Step>, i: nat, k: nat, tenant: string)
    requires i <= k <= |steps| < |states| && forall n :: i <= n < k ==> !steps[n].OtherCredit?
    ensures OutsideNet(states, steps, i, k, tenant) == 0
    decreases k
  {
    if i < k {
      NoOutsideNet(states, steps, i, k - 1, tenant);
    }
  }

  /** Without movements from outside, net credit plus spending is the same at any two points of a run. */
  lemma BaseMovesOnlyOutside(states: seq<State>, steps: seq<Step>, i: nat, k: nat, tenant: string)
    requires Run(states, steps) && i <= k < |states| && tenant in states[i].db.tenants
    requires forall n :: i <= n < k ==> !steps[n].OtherCredit?
    ensures tenant in states[k].db.tenants && Worth(states[k], tenant) == Worth(states[i], tenant)
  {
    OutsideCreditExplainsAll(states, steps, i, k, tenant);
    NoOutsideNet(states, steps, i, k, tenant);
  }

  // ---- terminal states ----

  lemma ClaimKeepsTerminal(db: Db, scope: Scope, other: string, retry: int, token: Token, leaseLength: int, job: string)
    requires job in db.jobs && Terminal(db.jobs[job].status)
    ensures var after := Claim(db, scope, other, retry, token, leaseLength).0;
            job in after.jobs && after.jobs[job] == db.jobs[job]
  {
  }

  lemma CommitKeepsTerminal(db: Db, p: SolvePayload, solved: seq<Shift>, other: string, retry: int, token: Option<Token>, job: string)
    requires job in db.jobs && Terminal(db.jobs[job].status)
    ensures var after := Commit(db, p, solved, other, retry, token).0;
            job in after.jobs && after.jobs[job] == db.jobs[job]
  {
  }

  lemma TerminalizeKeepsTerminal(db: Db, scope: Scope, other: string, status: Status, retry: int, token: Option<Token>, job: string)
    requires job in db.jobs && Terminal(db.jobs[job].status) && Refunding(status)
    ensures var after := Terminalize(db, scope, other, status, retry, token).0;
            job in after.jobs && after.jobs[job] == db.jobs[job]
  {
  }

  /** No step changes a terminal job row. */
  lemma StepKeepsTerminal(s: State, step: Step, job: string)
    requires Enabled(s, step)
    requires job in s.db.jobs && Terminal(s.db.jobs[job].status)
    ensures job in Apply(s, step).db.jobs && Apply(s, step).db.jobs[job] == s.db.jobs[job]
  {
    match step {
      case ClaimStep(scope, other, retry, newToken, leaseLength) =>
        ClaimKeepsTerminal(s.db, scope, other, retry, newToken, leaseLength, job);
      case CommitStep(p, solved, other, retry, token) => CommitKeepsTerminal(s.db, p, solved, other, retry, token, job);
      case TerminalizeStep(scope, other, status, retry, token) =>
        TerminalizeKeepsTerminal(s.db, scope, other, status, retry, token, job);
      case _ =>
    }
  }

  lemma TerminalizeKeepsLedger(s: State, scope: Scope, job: string, status: Status, retry: int, token: Option<Token>, id: string)
    requires Refunding(status) && id in s.db.ledger && (job in s.db.jobs ==> RowOk(s, job))
    ensures var after := Terminalize(s.db, scope, job, status, retry, token).0;
            id in after.ledger && after.ledger[id] == s.db.ledger[id]
  {
  }

  lemma StepKeepsLedger(s: State, step: Step, id: string)
    requires Inv(s) && Enabled(s, step) && id in s.db.ledger
    ensures id in Apply(s, step).db.ledger && Apply(s, step).db.ledger[id] == s.db.ledger[id]
  {
    if step.TerminalizeStep? {
      TerminalizeKeepsLedger(s, step.scope, step.job, step.status, step.retry, step.token, id);
    } else {
      OtherStepKeepsLedger(s, step, id);
    }
  }

  lemma OtherStepKeepsLedger(s: State, step: Step, id: string)
    requires Enabled(s, step) && !step.TerminalizeStep? && id in s.db.ledger
    ensures id in Apply(s, step).db.ledger && Apply(s, step).db.ledger[id] == s.db.ledger[id]
  {
  }

  lemma {:induction false} RowForever(states: seq<State>, steps: seq<Step>, i: nat, k: nat, job: string)
    requires Run(states, steps) && i <= k < |states|
    requires job in states[i].db.jobs && Terminal(states[i].db.jobs[job].status)
    ensures job in states[k].db.jobs && states[k].db.jobs[job] == states[i].db.jobs[job]
  {
    if i < k {
      RowForever(states, steps, i, k - 1, job);
      RunTakesStep(states, steps, k - 1);
      StepKeepsTerminal(states[k - 1], steps[k - 1], job);
    }
  }

  lemma {:induction false} LedgerForever(states: seq<State>, steps: seq<Step>, i: nat, k: nat, id: string)
    requires Run(states, steps) && i <= k < |states| && id in states[i].db.ledger
    ensures id in states[k].db.ledger && states[k].db.ledger[id] == states[i].db.ledger[id]
  {
    if i < k {
      LedgerForever(states, steps, i, k - 1, id);
      RunKeepsInv(states, steps, k - 1);
      RunTakesStep(states, steps, k - 1);
      StepKeepsLedger(states[k - 1], steps[k - 1], id);
    }
  }

  /** Once terminal, a job row and its ledger rows are the same forever after. */
  lemma TerminalForever(states: seq<State>, steps: seq<Step>, i: nat, k: nat, job: string)
    requires Run(states, steps) && i <= k < |states|
    requires job in states[i].db.jobs && Terminal(states[i].db.jobs[job].status)
    ensures job in states[k].db.jobs && states[k].db.jobs[job] == states[i].db.jobs[job]
    ensures forall id :: id in states[i].db.ledger ==>
              id in states[k].db.ledger && states[k].db.ledger[id] == states[i].db.ledger[id]
  {
    RowForever(states, steps, i, k, job);
    forall id | id in states[i].db.ledger
      ensures id in states[k].db.ledger && states[k].db.ledger[id] == states[i].db.ledger[id]
    {
      LedgerForever(states, steps, i, k, id);
    }
  }

  // ---- fencing ----

  /** The token a worker presents in a step, if it presents one. */
  function Presented(step: Step): Option<Token> {
    match step
    case ClaimStep(_, _, _, newToken, _) => Some(newToken)
    case CommitStep(_, _, _, _, token) => token
    case TerminalizeStep(_, _, _, _, token) => token
    case RetryStep(_, _, _, token) => token
    case _ => None
  }

  /** A job nobody but the holder of its token may change right now. */
  predicate Leased(db: Db, job: string) {
    job in db.jobs && db.jobs[job].status.Running? && LeaseLive(db.jobs[job], db.now) && db.jobs[job].token.Some?
  }

  lemma ClaimSparesLeased(db: Db, scope: Scope, other: string, retry: int, token: Token, leaseLength: int, job: string)
    requires Leased(db, job) && db.jobs[job].token != Some(token)
    ensures var after := Claim(db, scope, other, retry, token, leaseLength).0;
            job in after.jobs && after.jobs[job] == db.jobs[job]
  {
  }

  lemma TerminalizeSparesLeased(db: Db, scope: Scope, other: string, status: Status, retry: int, token: Option<Token>, job: string)
    requires Leased(db, job) && db.jobs[job].token != token && Refunding(status)
    ensures var after := Terminalize(db, scope, other, status, retry, token).0;
            job in after.jobs && after.jobs[job] == db.jobs[job]
  {
    if other == job {
      assert !MayMutate(db.jobs[job], token, db.now);
    }
  }

  lemma RetrySparesLeased(db: Db, scope: Scope, other: string, retry: int, token: Option<Token>, job: string)
    requires Leased(db, job) && db.jobs[job].token != token
    ensures var after := MarkRetrying(db, scope, other, retry, token);
            job in after.jobs && after.jobs[job] == db.jobs[job]
  {
  }

  lemma CommitSparesLeased(db: Db, p: SolvePayload, solved: seq<Shift>, other: string, retry: int, token: Option<Token>, job: string)
    requires Leased(db, job) && db.jobs[job].token != token
    ensures var after := Commit(db, p, solved, other, retry, token).0;
            job in after.jobs && after.jobs[job] == db.jobs[job]
  {
  }

  /** While a lease is unexpired, a step that changes the job row presented the job's own token. */
  lemma LeaseExcludesOthers(s: State, step: Step, job: string)
    requires Inv(s) && Enabled(s, step) && Leased(s.db, job)
    requires !(job in Apply(s, step).db.jobs && Apply(s, step).db.jobs[job] == s.db.jobs[job])
    ensures Presented(step) == s.db.jobs[job].token && !step.ClaimStep?
  {
    var token := s.db.jobs[job].token;
    assert token.value < s.nextToken by {
      assert RowOk(s, job);
    }
    match step {
      case ClaimStep(scope, other, retry, newToken, leaseLength) =>
        ClaimSparesLeased(s.db, scope, other, retry, newToken, leaseLength, job);
      case TerminalizeStep(scope, other, status, retry, presented) =>
        if presented != token {
          TerminalizeSparesLeased(s.db, scope, other, status, retry, presented, job);
        }
      case RetryStep(scope, other, retry, presented) =>
        if presented != token {
          RetrySparesLeased(s.db, scope, other, retry, presented, job);
        }
      case CommitStep(p, solved, other, retry, presented) =>
        if presented != token {
          CommitSparesLeased(s.db, p, solved, other, retry, presented, job);
        }
      case _ =>
    }
  }

  /** A claim is won exactly on a live job that no unexpired lease protects. */
  lemma ClaimWonExactly(s: State, step: Step)
    requires Inv(s) && Enabled(s, step) && step.ClaimStep?
    requires HasRow(s.db, step.scope, step.job) && Entitled(s.db, step.scope.tenant)
    ensures var row := s.db.jobs[step.job];
            var outcome := Claim(s.db, step.scope, step.job, step.retry, step.newToken, step.leaseLength).1;
            && (outcome.Claimed? <==> !Terminal(row.status) && (row.token.None? || LeaseExpired(row, s.db.now)))
            && (outcome.Busy? <==> row.token.Some? && LeaseLive(row, s.db.now))
            && (outcome.AlreadyTerminal? <==> Terminal(row.status))
            && (outcome.Claimed? ==>
                  && Apply(s, step).db.jobs[step.job].token == Some(step.newToken)
                  && LeaseLive(Apply(s, step).db.jobs[step.job], s.db.now))
            && (!outcome.Claimed? ==> Apply(s, step).db == s.db)
  {
    assert RowOk(s, step.job);
  }

  /** A token in circulation that is not the job's token. */
  ghost predicate Stale(s: State, job: string, token: Token) {
    token < s.nextToken && job in s.db.jobs && s.db.jobs[job].token != Some(token)
  }

  lemma StepKeepsStale(s: State, step: Step, job: string, token: Token)
    requires Enabled(s, step) && Stale(s, job, token)
    ensures Stale(Apply(s, step), job, token)
  {
  }

  /** A worker transaction that presents a stale token for a job changes nothing at all. */
  lemma StaleChangesNothing(s: State, step: Step, job: string, token: Token)
    requires Inv(s) && Enabled(s, step) && Stale(s, job, token)
    requires Presented(step) == Some(token)
    requires step.CommitStep? || step.TerminalizeStep? || step.RetryStep?
    requires step.job == job
    ensures Apply(s, step) == s
  {
  }

  lemma {:induction false} StaysStale(states: seq<State>, steps: seq<Step>, i: nat, k: nat, job: string, token: Token)
    requires Run(states, steps) && i <= k < |states| && Stale(states[i], job, token)
    ensures Stale(states[k], job, token)
  {
    if i < k {
      StaysStale(states, steps, i, k - 1, job, token);
      RunTakesStep(states, steps, k - 1);
      StepKeepsStale(states[k - 1], steps[k - 1], job, token);
    }
  }

  /** Fencing over runs: a replaced token is useless from then on. */
  lemma FencedForever(states: seq<State>, steps: seq<Step>, i: nat, k: nat, job: string, token: Token)
    requires Run(states, steps) && i <= k < |steps| && Stale(states[i], job, token)
    requires Presented(steps[k]) == Some(token)
    requires steps[k].CommitStep? || steps[k].TerminalizeStep? || steps[k].RetryStep?
    requires steps[k].job == job
    ensures states[k + 1] == states[k] && Stale(states[k], job, token)
  {
    RunKeepsInv(states, steps, k);
    RunTakesStep(states, steps, k);
    StaysStale(states, steps, i, k, job, token);
    StaleChangesNothing(states[k], steps[k], job, token);
  }

  // ---- at most one commit ----

  /** A commit that changed anything finished the job and moved the draft by one revision. */
  lemma CommitEffect(s: State, step: Step)
    requires Inv(s) && Enabled(s, step) && step.CommitStep? && Apply(s, step) != s
    ensures var t := Apply(s, step);
            var schedule := step.payload.scope.schedule;
            && step.job in s.db.jobs && s.db.jobs[step.job].status.Running?
            && s.db.jobs[step.job].token == step.token
            && t.db.jobs[step.job].status.Succeeded?
            && t.db.jobs[step.job].resultShifts == Some(|step.solved|)
            && schedule in s.db.plan.schedules && schedule in t.db.plan.schedules
            && t.db.plan.schedules[schedule].revision == s.db.plan.schedules[schedule].revision + 1
            && (forall other :: other in s.db.plan.schedules && other != schedule ==>
                  other in t.db.plan.schedules && t.db.plan.schedules[other] == s.db.plan.schedules[other])
            && t.db.tenants == s.db.tenants && t.db.ledger == s.db.ledger
  {
    assert RowOk(s, step.job);
  }

  /** A commit for a finished job has no effect. */
  lemma FinishedJobsAreNotCommitted(s: State, step: Step)
    requires Inv(s) && Enabled(s, step) && step.CommitStep? && step.job in s.db.jobs && Terminal(s.db.jobs[step.job].status)
    ensures Apply(s, step) == s
  {
    if Apply(s, step) != s {
      CommitEffect(s, step);
    }
  }

  lemma CommitFinishes(s: State, step: Step)
    requires Inv(s) && Enabled(s, step) && step.CommitStep? && Apply(s, step) != s
    ensures step.job in Apply(s, step).db.jobs && Terminal(Apply(s, step).db.jobs[step.job].status)
  {
    CommitEffect(s, step);
  }

  /** In a whole run at most one commit attempt for a job has any effect. */
  lemma AtMostOneCommit(states: seq<State>, steps: seq<Step>, i: nat, k: nat)
    requires Run(states, steps) && i < k < |steps|
    requires steps[i].CommitStep? && steps[k].CommitStep? && steps[i].job == steps[k].job
    requires states[i + 1] != states[i]
    ensures states[k + 1] == states[k]
  {
    CommitFinishesInRun(states, steps, i);
    RowForever(states, steps, i + 1, k, steps[i].job);
    NoCommitAfterwards(states, steps, k);
  }

  lemma CommitFinishesInRun(states: seq<State>, steps: seq<Step>, i: nat)
    requires Run(states, steps) && i < |steps| && steps[i].CommitStep? && states[i + 1] != states[i]
    ensures steps[i].job in states[i + 1].db.jobs && Terminal(states[i + 1].db.jobs[steps[i].job].status)
  {
    RunKeepsInv(states, steps, i);
    RunTakesStep(states, steps, i);
    CommitFinishes(states[i], steps[i]);
  }

  lemma NoCommitAfterwards(states: seq<State>, steps: seq<Step>, k: nat)
    requires Run(states, steps) && k < |steps| && steps[k].CommitStep?
    requires steps[k].job in states[k].db.jobs && Terminal(states[k].db.jobs[steps[k].job].status)
    ensures states[k + 1] == states[k]
  {
    RunKeepsInv(states, steps, k);
    RunTakesStep(states, steps, k);
    FinishedJobsAreNotCommitted(states[k], steps[k]);
  }

  /** No worker step other than such a commit touches shifts, breaks or revisions. */
  lemma OnlyCommitsTouchThePlan(s: State, step: Step)
    requires Inv(s) && Enabled(s, step) && Apply(s, step).db.plan != s.db.plan
    ensures step.EditPlan? || (step.CommitStep? && step.token.Some? && s.db.jobs[step.job].token == step.token)
  {
    if step.CommitStep? {
      CommitEffect(s, step);
      assert RowOk(s, step.job);
    }
  }
}
