/**
 What comes of one handling, over whole runs: which events end a job and why, when a message is copied and with
 which retry count, and what a handler still owes after a fault, a refusal or a busy claim. Told in events, in rows
 of the tables and in messages.
 */
module HandlingOutcomes {
  import opened Results
  import opened Credits
  import opened Shifts
  import opened Jobs
  import History = JobHistory
  import opened RetryQueues
  import opened Delivery
  import opened DeliveryInvariant
  import opened NoStranding
  import opened JobEffects

  // ---- what an event tells its handler ----

  /** The handler is at work on a job the database knows. */
  predicate AtWork(s: System, h: nat) { In(s, h) && s.handlers[h].job in s.books.db.jobs }

  function RowOf(s: System, h: nat): Job
    requires AtWork(s, h)
  {
    s.books.db.jobs[s.handlers[h].job]
  }

  /** The token that the handler's own claim won. */
  predicate Shows(s: System, h: nat, token: Token) { In(s, h) && s.handlers[h].phase == Executing(token) }

  /** A non-retryable outcome: the engine rejects the input, or a claim or commit is refused for good. */
  ghost predicate MeetsRefusal(s: System, e: Event, h: nat)
    requires AtWork(s, h)
  {
    var db := s.books.db;
    || e == EngineRejects(h)
    || (e.TryClaim? && e.handler == h && e.fault == Clean && !Ended(RowOf(s, h).status) && !Served(db, RowOf(s, h).scope.tenant))
    || (e.TryCommit? && e.handler == h && e.fault == Clean
        && exists token: Token :: Shows(s, h, token) && CommitBarred(db, e.payload, e.solved, s.handlers[h].job, Some(token)))
  }

  /** A retryable fault: of the engine, of a transaction that failed or reported failure, or of a number that overflows. */
  ghost predicate MeetsFault(s: System, e: Event, h: nat)
    requires AtWork(s, h)
  {
    var db := s.books.db;
    || e == EngineFails(h)
    || (e.TryClaim? && e.handler == h && e.fault != Clean)
    || (e.TryCommit? && e.handler == h && (e.fault != Clean || RevisionSpent(s, h, e.payload, e.solved)))
    || (e.StoreFailed? && e.handler == h && (e.fault != Clean || WalletFull(s, h)))
  }

  /** The commit would go through, but the draft's revision cannot be raised. */
  ghost predicate RevisionSpent(s: System, h: nat, p: SolvePayload, solved: seq<Shift>)
    requires AtWork(s, h)
  {
    exists token: Token ::
      && Shows(s, h, token) && !CommitBarred(s.books.db, p, solved, s.handlers[h].job, Some(token))
      && !Ended(RowOf(s, h).status) && RowOf(s, h).token == Some(token) && p.draftRevision == MAX_INTEGER
  }

  /** The failure might be stored, but the wallet cannot hold the refund. */
  predicate WalletFull(s: System, h: nat)
    requires AtWork(s, h)
  {
    && s.handlers[h].phase.Condemned?
    && MayFail(s.books.db, RowOf(s, h).scope, s.handlers[h].job, s.handlers[h].phase.held)
    && RowOf(s, h).charge.Credits? && RowOf(s, h).scope.tenant in s.books.db.tenants
    && !WalletTakes(s.books.db, s.handlers[h].job)
  }

  /** The claim finds another worker on the job. */
  predicate MeetsBusy(s: System, e: Event, h: nat)
    requires AtWork(s, h)
  {
    && e.TryClaim? && e.handler == h && e.fault == Clean
    && Served(s.books.db, RowOf(s, h).scope.tenant) && Worked(RowOf(s, h), s.books.db.now)
  }

  /** The claim is won: the job has not ended, its tenant is served, and no other worker is on it. */
  predicate WinsClaim(s: System, e: Event, h: nat)
    requires AtWork(s, h)
  {
    && e.TryClaim? && e.handler == h && e.fault == Clean
    && !Ended(RowOf(s, h).status) && Served(s.books.db, RowOf(s, h).scope.tenant) && !Worked(RowOf(s, h), s.books.db.now)
  }

  /** The step leaves the handler nothing but to settle its delivery. */
  ghost predicate MeetsEnd(s: System, e: Event, h: nat)
    requires AtWork(s, h)
  {
    || e == SkipCompleted(h)
    || (e.TryClaim? && e.handler == h && e.fault == Clean && Ended(RowOf(s, h).status))
    || (e.TryCommit? && e.handler == h && !MeetsRefusal(s, e, h) && !MeetsFault(s, e, h))
    || (e.StoreFailed? && e.handler == h && !MeetsFault(s, e, h))
    || (e.StoreDeadLettered? && e.handler == h)
    || (e.StoreRetrying? && e.handler == h)
    || (e.Publish? && e.handler == h && e.confirm != Confirmed)
  }

  /** The step sends the delivery back to its queue: the copy is not confirmed, or the dead letter could not be stored. */
  predicate SendsBack(s: System, e: Event, h: nat)
    requires AtWork(s, h)
  {
    || (e.Publish? && e.handler == h && e.confirm != Confirmed)
    || (e.StoreDeadLettered? && e.handler == h && !(e.fault == Clean && DeadLetterStands(s, h)))
  }

  /** The job has ended, or the dead letter of this handler can be stored with its refund. */
  predicate DeadLetterStands(s: System, h: nat)
    requires AtWork(s, h)
  {
    || Ended(RowOf(s, h).status)
    || (s.handlers[h].phase.Faulted?
        && MayFail(s.books.db, RowOf(s, h).scope, s.handlers[h].job, s.handlers[h].phase.held)
        && RowOf(s, h).charge.Credits? && RowOf(s, h).scope.tenant in s.books.db.tenants
        && WalletTakes(s.books.db, s.handlers[h].job))
  }

  // ---- each own step, and where it leads ----

  predicate Settling(phase: Phase) { phase.Acking? || phase.Rejecting? || phase.Requeueing? }

  /** The phase tells what the step met. */
  ghost predicate LeadTold(s: System, e: Event, h: nat, phase: Phase)
    requires AtWork(s, h)
  {
    && (phase.Condemned? <==> MeetsRefusal(s, e, h))
    && (phase.Faulted? <==> MeetsFault(s, e, h))
    && (phase.Delaying? <==> MeetsBusy(s, e, h))
    && (phase.Executing? <==> WinsClaim(s, e, h))
  }

  /** The phase tells whether the step ended the work and sent the delivery back. */
  ghost predicate EndTold(s: System, e: Event, h: nat, phase: Phase)
    requires AtWork(s, h)
  {
    (MeetsEnd(s, e, h) ==> Settling(phase)) && (phase.Requeueing? <==> SendsBack(s, e, h))
  }

  /** The outcome of a claim, told as in `ClaimInFields`. */
  predicate ClaimTold(s: System, h: nat, outcome: Outcome)
    requires AtWork(s, h)
  {
    var row, served := RowOf(s, h), Served(s.books.db, RowOf(s, h).scope.tenant);
    && (outcome == NonRetryable <==> !Ended(row.status) && !served)
    && (outcome == AlreadyTerminal <==> Ended(row.status))
    && (outcome == Busy <==> served && Worked(row, s.books.db.now))
    && (outcome == Claimed <==> !Ended(row.status) && served && !Worked(row, s.books.db.now))
  }

  lemma ClaimIsTold(s: System, h: nat, token: Token, leaseLength: int)
    requires History.Inv(s.books) && AtWork(s, h) && s.books.nextToken <= token
    ensures ClaimTold(s, h, ClaimOf(s, h, token, leaseLength).1)
  {
    ClaimInFields(s.books, JobScope(s, h), s.handlers[h].job, s.handlers[h].retry, token, leaseLength);
  }

  lemma ClaimMovesTo(s: System, h: nat, token: Token, leaseLength: int, fault: Fault)
    requires AtWork(s, h)
    ensures Claims(s, h, token, leaseLength, fault).handlers[h].phase
            == if fault.Clean? then ClaimPhase(ClaimOf(s, h, token, leaseLength).1, token) else Faulted(None)
  {
  }

  lemma ToldClaimLeads(s: System, h: nat, token: Token, leaseLength: int, fault: Fault, outcome: Outcome, phase: Phase)
    requires AtWork(s, h) && ClaimTold(s, h, outcome)
    requires phase == if fault.Clean? then ClaimPhase(outcome, token) else Faulted(None)
    ensures LeadTold(s, TryClaim(h, token, leaseLength, fault), h, phase)
    ensures EndTold(s, TryClaim(h, token, leaseLength, fault), h, phase)
  {
  }

  lemma ClaimLeads(s: System, h: nat, token: Token, leaseLength: int, fault: Fault)
    requires History.Inv(s.books) && AtWork(s, h) && s.books.nextToken <= token
    ensures LeadTold(s, TryClaim(h, token, leaseLength, fault), h, Claims(s, h, token, leaseLength, fault).handlers[h].phase)
    ensures EndTold(s, TryClaim(h, token, leaseLength, fault), h, Claims(s, h, token, leaseLength, fault).handlers[h].phase)
  {
    ClaimIsTold(s, h, token, leaseLength);
    ClaimMovesTo(s, h, token, leaseLength, fault);
    ToldClaimLeads(s, h, token, leaseLength, fault, ClaimOf(s, h, token, leaseLength).1,
                   Claims(s, h, token, leaseLength, fault).handlers[h].phase);
  }

  /** The outcome of a commit, told as in `CommitInFields`. */
  ghost predicate CommitTold(s: System, h: nat, token: Token, p: SolvePayload, solved: seq<Shift>, outcome: Outcome)
    requires AtWork(s, h)
  {
    var barred := CommitBarred(s.books.db, p, solved, s.handlers[h].job, Some(token));
    && (outcome == NonRetryable <==> barred)
    && (outcome == Retryable <==>
          !barred && !Ended(RowOf(s, h).status) && RowOf(s, h).token == Some(token) && p.draftRevision == MAX_INTEGER)
    && (outcome == Done || outcome == NonRetryable || outcome == OwnershipLost || outcome == Retryable)
  }

  lemma CommitIsTold(s: System, h: nat, token: Token, p: SolvePayload, solved: seq<Shift>, outcome: Outcome)
    requires History.Inv(s.books) && AtWork(s, h)
    requires outcome == Commit(s.books.db, p, solved, s.handlers[h].job, s.handlers[h].retry, Some(token)).1
    ensures CommitTold(s, h, token, p, solved, outcome)
  {
    CommitInFields(s.books, p, solved, s.handlers[h].job, s.handlers[h].retry, Some(token));
  }

  lemma ToldCommitLeads(s: System, h: nat, token: Token, p: SolvePayload, solved: seq<Shift>, fault: Fault, outcome: Outcome, phase: Phase)
    requires AtWork(s, h) && Shows(s, h, token) && CommitTold(s, h, token, p, solved, outcome)
    requires phase == if fault.Clean? then CommitPhase(outcome, token) else Faulted(Some(token))
    ensures LeadTold(s, TryCommit(h, p, solved, fault), h, phase)
    ensures EndTold(s, TryCommit(h, p, solved, fault), h, phase)
  {
    assert forall other: Token :: Shows(s, h, other) ==> other == token;
  }

  lemma CommitMovesTo(s: System, h: nat, p: SolvePayload, solved: seq<Shift>, fault: Fault, outcome: Outcome)
    requires Can(s, TryCommit(h, p, solved, fault))
    requires outcome == Commit(s.books.db, p, solved, s.handlers[h].job, s.handlers[h].retry, Some(s.handlers[h].phase.token)).1
    ensures Commits(s, h, p, solved, fault).handlers[h].phase
            == if fault.Clean? then CommitPhase(outcome, s.handlers[h].phase.token) else Faulted(Some(s.handlers[h].phase.token))
  {
  }

  lemma CommitLeads(s: System, h: nat, p: SolvePayload, solved: seq<Shift>, fault: Fault)
    requires History.Inv(s.books) && AtWork(s, h) && Can(s, TryCommit(h, p, solved, fault))
    ensures LeadTold(s, TryCommit(h, p, solved, fault), h, Commits(s, h, p, solved, fault).handlers[h].phase)
    ensures EndTold(s, TryCommit(h, p, solved, fault), h, Commits(s, h, p, solved, fault).handlers[h].phase)
  {
    var token := s.handlers[h].phase.token;
    var outcome := Commit(s.books.db, p, solved, s.handlers[h].job, s.handlers[h].retry, Some(token)).1;
    CommitIsTold(s, h, token, p, solved, outcome);
    CommitMovesTo(s, h, p, solved, fault, outcome);
    ToldCommitLeads(s, h, token, p, solved, fault, outcome, Commits(s, h, p, solved, fault).handlers[h].phase);
  }

  /** The outcome of storing a failure, told as in `TerminalizeInFields`. */
  predicate RefundTold(s: System, h: nat, held: Option<Token>, outcome: Outcome)
    requires AtWork(s, h)
  {
    && RowOf(s, h).charge.Credits? && RowOf(s, h).scope.tenant in s.books.db.tenants
    && var may := MayFail(s.books.db, RowOf(s, h).scope, s.handlers[h].job, held);
       && (outcome == Retryable <==> may && !WalletTakes(s.books.db, s.handlers[h].job))
       && (outcome == Done <==> Ended(RowOf(s, h).status) || (may && WalletTakes(s.books.db, s.handlers[h].job)))
       && (outcome == Done || outcome == Retryable || outcome == OwnershipLost)
  }

  lemma RefundIsTold(s: System, h: nat, status: Status, retry: nat, held: Option<Token>)
    requires History.Inv(s.books) && AtWork(s, h) && (status == Failed || status == DeadLettered)
    ensures RefundTold(s, h, held, RefundOf(s, h, status, retry, held).1)
  {
    TerminalizeInFields(s.books, JobScope(s, h), s.handlers[h].job, status, retry, held);
  }

  lemma ToldFailureLeads(s: System, h: nat, fault: Fault, outcome: Outcome, phase: Phase)
    requires AtWork(s, h) && s.handlers[h].phase.Condemned? && RefundTold(s, h, s.handlers[h].phase.held, outcome)
    requires phase == if fault.Clean? then FailedPhase(outcome) else Faulted(None)
    ensures LeadTold(s, StoreFailed(h, fault), h, phase) && EndTold(s, StoreFailed(h, fault), h, phase)
  {
  }

  lemma FailureMovesTo(s: System, h: nat, fault: Fault)
    requires AtWork(s, h) && s.handlers[h].phase.Condemned?
    ensures Fails(s, h, fault).handlers[h].phase
            == if fault.Clean? then FailedPhase(RefundOf(s, h, Failed, s.handlers[h].retry, s.handlers[h].phase.held).1) else Faulted(None)
  {
  }

  lemma FailureLeads(s: System, h: nat, fault: Fault)
    requires History.Inv(s.books) && AtWork(s, h) && s.handlers[h].phase.Condemned?
    ensures LeadTold(s, StoreFailed(h, fault), h, Fails(s, h, fault).handlers[h].phase)
    ensures EndTold(s, StoreFailed(h, fault), h, Fails(s, h, fault).handlers[h].phase)
  {
    var w := s.handlers[h];
    RefundIsTold(s, h, Failed, w.retry, w.phase.held);
    FailureMovesTo(s, h, fault);
    ToldFailureLeads(s, h, fault, RefundOf(s, h, Failed, w.retry, w.phase.held).1, Fails(s, h, fault).handlers[h].phase);
  }

  lemma ToldDeadLetterLeads(s: System, h: nat, fault: Fault, outcome: Outcome, phase: Phase)
    requires AtWork(s, h) && s.handlers[h].phase.Faulted? && RefundTold(s, h, s.handlers[h].phase.held, outcome)
    requires phase == if fault.Clean? && outcome == Done then Rejecting else Requeueing
    ensures LeadTold(s, StoreDeadLettered(h, fault), h, phase) && EndTold(s, StoreDeadLettered(h, fault), h, phase)
  {
  }

  lemma DeadLetterMovesTo(s: System, h: nat, fault: Fault)
    requires AtWork(s, h) && s.handlers[h].phase.Faulted?
    ensures Delivery.DeadLetters(s, h, fault).handlers[h].phase
            == if fault.Clean? && RefundOf(s, h, DeadLettered, s.maxRetries, s.handlers[h].phase.held).1 == Done then Rejecting else Requeueing
  {
  }

  lemma DeadLetterLeads(s: System, h: nat, fault: Fault)
    requires History.Inv(s.books) && AtWork(s, h) && s.handlers[h].phase.Faulted?
    ensures LeadTold(s, StoreDeadLettered(h, fault), h, Delivery.DeadLetters(s, h, fault).handlers[h].phase)
    ensures EndTold(s, StoreDeadLettered(h, fault), h, Delivery.DeadLetters(s, h, fault).handlers[h].phase)
  {
    var w := s.handlers[h];
    RefundIsTold(s, h, DeadLettered, s.maxRetries, w.phase.held);
    DeadLetterMovesTo(s, h, fault);
    ToldDeadLetterLeads(s, h, fault, RefundOf(s, h, DeadLettered, s.maxRetries, w.phase.held).1,
                        Delivery.DeadLetters(s, h, fault).handlers[h].phase);
  }

  lemma OtherStepLeads(s: System, e: Event, h: nat, t: System)
    requires AtWork(s, h) && Can(s, e) && Actor(e) == Some(h) && t == Next(s, e) && In(t, h)
    requires e.SkipCompleted? || e.EngineFails? || e.EngineRejects? || e.Publish? || e.StoreRetrying?
    ensures LeadTold(s, e, h, t.handlers[h].phase) && EndTold(s, e, h, t.handlers[h].phase)
  {
  }

  lemma TransactionLeads(s: System, e: Event, h: nat, t: System)
    requires History.Inv(s.books) && AtWork(s, h) && Can(s, e) && Actor(e) == Some(h) && t == Next(s, e) && In(t, h)
    requires !e.SkipCompleted? && !e.EngineFails? && !e.EngineRejects? && !e.Publish? && !e.StoreRetrying?
    ensures LeadTold(s, e, h, t.handlers[h].phase) && EndTold(s, e, h, t.handlers[h].phase)
  {
    match e {
      case TryClaim(_, token, leaseLength, fault) => ClaimLeads(s, h, token, leaseLength, fault);
      case TryCommit(_, p, solved, fault) => CommitLeads(s, h, p, solved, fault);
      case StoreFailed(_, fault) => FailureLeads(s, h, fault);
      case StoreDeadLettered(_, fault) => DeadLetterLeads(s, h, fault);
    }
  }

  lemma StepLeads(s: System, e: Event, h: nat, t: System)
    requires History.Inv(s.books) && AtWork(s, h) && Can(s, e) && Actor(e) == Some(h) && t == Next(s, e) && In(t, h)
    ensures LeadTold(s, e, h, t.handlers[h].phase) && EndTold(s, e, h, t.handlers[h].phase)
  {
    if e.SkipCompleted? || e.EngineFails? || e.EngineRejects? || e.Publish? || e.StoreRetrying? {
      OtherStepLeads(s, e, h, t);
    } else {
      TransactionLeads(s, e, h, t);
    }
  }

  // ---- the last own event of a handler ----

  /** The handler takes no step strictly between the two points. */
  predicate Rests(events: seq<Event>, k: nat, i: nat, h: nat) {
    forall m :: k < m < i <= |events| ==> Actor(events[m]) != Some(h)
  }

  /** The handler's last step before point `i` is event `k`. */
  predicate LastStep(events: seq<Event>, k: nat, i: nat, h: nat) {
    k < i <= |events| && Actor(events[k]) == Some(h) && Rests(events, k, i, h)
  }

  lemma {:induction false} HasLastStep(states: seq<System>, events: seq<Event>, i: nat, h: nat) returns (k: nat)
    requires Run(states, events) && i < |states| && In(states[i], h) && !states[i].handlers[h].phase.Received?
    ensures LastStep(events, k, i, h) && In(states[k], h) && In(states[k + 1], h)
    ensures states[i].handlers[h] == states[k + 1].handlers[h]
  {
    RunTakesStep(states, events, i - 1);
    if Actor(events[i - 1]) == Some(h) {
      k := i - 1;
      OwnStepJob(states[k], events[k], h);
    } else {
      OthersStay(states[i - 1], events[i - 1], h);
      k := HasLastStep(states, events, i - 1, h);
    }
  }

  lemma WorkerIsAtWork(states: seq<System>, events: seq<Event>, i: nat, h: nat)
    requires Run(states, events) && i < |states| && In(states[i], h)
    ensures SystemInv(states[i]) && AtWork(states[i], h)
  {
    RunKeepsInv(states, events, i);
    assert HandlerOk(states[i], h);
  }

  lemma StepLeadsInRun(states: seq<System>, events: seq<Event>, k: nat, h: nat)
    requires Run(states, events) && k < |events| && Actor(events[k]) == Some(h)
    ensures AtWork(states[k], h) && In(states[k + 1], h)
    ensures LeadTold(states[k], events[k], h, states[k + 1].handlers[h].phase)
    ensures EndTold(states[k], events[k], h, states[k + 1].handlers[h].phase)
  {
    RunTakesStep(states, events, k);
    OwnStepJob(states[k], events[k], h);
    WorkerIsAtWork(states, events, k, h);
    StepLeads(states[k], events[k], h, states[k + 1]);
  }

  // ---- which rows an event may change, and to what ----

  /** The row that the event leaves of a job it changes. */
  ghost predicate RowAfter(s: System, e: Event, before: Job, after: Job)
    requires Actor(e).Some? ==> In(s, Actor(e).value)
  {
    match e
    case TryClaim(h, token, leaseLength, _) =>
      after == Job(before.scope, Running, Some(token), Some(s.books.db.now + leaseLength), before.charge, s.handlers[h].retry, before.resultShifts)
    case TryCommit(h, _, solved, _) => after == Job(before.scope, Succeeded, None, None, before.charge, s.handlers[h].retry, Some(|solved|))
    case StoreFailed(h, _) => after == Job(before.scope, Failed, None, None, before.charge, s.handlers[h].retry, None)
    case StoreDeadLettered(h, _) => after == Job(before.scope, DeadLettered, None, None, before.charge, s.maxRetries, None)
    case StoreRetrying(h, _) => after == Job(before.scope, Retrying, None, None, before.charge, s.handlers[h].retry + 1, None)
    case _ => false
  }

  ghost predicate RowMovesAsTold(s: System, e: Event, t: System, job: string)
    requires Can(s, e)
  {
    job in s.books.db.jobs ==>
      && job in t.books.db.jobs
      && (t.books.db.jobs[job] != s.books.db.jobs[job] ==>
            && Actor(e).Some? && In(s, Actor(e).value) && s.handlers[Actor(e).value].job == job
            && RowAfter(s, e, s.books.db.jobs[job], t.books.db.jobs[job]))
  }

  lemma ClaimMovesRow(s: System, h: nat, token: Token, leaseLength: int, fault: Fault, job: string)
    requires AtWork(s, h) && Can(s, TryClaim(h, token, leaseLength, fault))
    ensures RowMovesAsTold(s, TryClaim(h, token, leaseLength, fault), Claims(s, h, token, leaseLength, fault), job)
  {
    ClaimRowInFields(s.books.db, JobScope(s, h), s.handlers[h].job, s.handlers[h].retry, token, leaseLength);
  }

  lemma CommitMovesRow(s: System, h: nat, p: SolvePayload, solved: seq<Shift>, fault: Fault, job: string)
    requires AtWork(s, h) && Can(s, TryCommit(h, p, solved, fault))
    ensures RowMovesAsTold(s, TryCommit(h, p, solved, fault), Commits(s, h, p, solved, fault), job)
  {
    CommitRowInFields(s.books.db, p, solved, s.handlers[h].job, s.handlers[h].retry, Some(s.handlers[h].phase.token));
  }

  lemma RefundMovesRow(s: System, h: nat, status: Status, retry: nat, held: Option<Token>, job: string)
    requires History.Inv(s.books) && AtWork(s, h) && (status == Failed || status == DeadLettered) && job in s.books.db.jobs
    ensures var after := RefundOf(s, h, status, retry, held).0;
            && job in after.jobs
            && (after.jobs[job] == s.books.db.jobs[job]
                || (job == s.handlers[h].job
                    && after.jobs[job] == Job(JobScope(s, h), status, None, None, s.books.db.jobs[job].charge, retry, None)))
  {
    TerminalizeInFields(s.books, JobScope(s, h), s.handlers[h].job, status, retry, held);
    if MayFail(s.books.db, JobScope(s, h), s.handlers[h].job, held) {
      FailureInFields(s.books, JobScope(s, h), s.handlers[h].job, status, retry, held);
    }
  }

  lemma FailureMovesRow(s: System, h: nat, fault: Fault, job: string)
    requires History.Inv(s.books) && AtWork(s, h) && Can(s, StoreFailed(h, fault)) && job in s.books.db.jobs
    ensures RowMovesAsTold(s, StoreFailed(h, fault), Fails(s, h, fault), job)
  {
    RefundMovesRow(s, h, Failed, s.handlers[h].retry, s.handlers[h].phase.held, job);
  }

  lemma DeadLetterMovesRow(s: System, h: nat, fault: Fault, job: string)
    requires History.Inv(s.books) && AtWork(s, h) && Can(s, StoreDeadLettered(h, fault)) && job in s.books.db.jobs
    ensures RowMovesAsTold(s, StoreDeadLettered(h, fault), DeadLetters(s, h, fault), job)
  {
    RefundMovesRow(s, h, DeadLettered, s.maxRetries, s.handlers[h].phase.held, job);
  }

  lemma MarkMovesRow(s: System, h: nat, fault: Fault, job: string)
    requires AtWork(s, h) && Can(s, StoreRetrying(h, fault))
    ensures RowMovesAsTold(s, StoreRetrying(h, fault), Marks(s, h, fault), job)
  {
    MarkInFields(s.books.db, JobScope(s, h), s.handlers[h].job, s.handlers[h].retry + 1, s.handlers[h].phase.held);
  }

  lemma QuietMovesNoRow(s: System, e: Event, job: string)
    requires Can(s, e) && Transacting(e).None? && job in s.books.db.jobs
    ensures job in Next(s, e).books.db.jobs && Next(s, e).books.db.jobs[job] == s.books.db.jobs[job]
  {
    if !e.Outside? {
      QuietGrows(s, e);
    } else {
      OutsideMovesNoRow(s, e.step, job);
    }
  }

  lemma OutsideMovesNoRow(s: System, step: History.Step, job: string)
    requires History.Enabled(s.books, step) && job in s.books.db.jobs
    requires step.Enqueue? || step.OtherCredit? || step.Subscription? || step.EditPlan? || step.Tick?
    ensures job in Happens(s, step).books.db.jobs && Happens(s, step).books.db.jobs[job] == s.books.db.jobs[job]
  {
  }

  /** In every run a job row changes only by a transaction of a handler of that job, and to the row of that transaction. */
  lemma RowsMoveAsTold(states: seq<System>, events: seq<Event>, i: nat, job: string)
    requires Run(states, events) && i < |events| && job in states[i].books.db.jobs
    ensures Can(states[i], events[i]) && RowMovesAsTold(states[i], events[i], states[i + 1], job)
  {
    var s, e := states[i], events[i];
    RunTakesStep(states, events, i);
    RunKeepsInv(states, events, i);
    if Transacting(e).Some? {
      HandledJobExists(s, e);
    }
    match e {
      case TryClaim(h, token, leaseLength, fault) => ClaimMovesRow(s, h, token, leaseLength, fault, job);
      case TryCommit(h, p, solved, fault) => CommitMovesRow(s, h, p, solved, fault, job);
      case StoreFailed(h, fault) => FailureMovesRow(s, h, fault, job);
      case StoreDeadLettered(h, fault) => DeadLetterMovesRow(s, h, fault, job);
      case StoreRetrying(h, fault) => MarkMovesRow(s, h, fault, job);
      case _ => QuietMovesNoRow(s, e, job);
    }
  }

  /** The transaction reaches the database and finds that it may write. */
  ghost predicate TakesEffect(s: System, e: Event, h: nat)
    requires AtWork(s, h)
  {
    var db, row, job, phase := s.books.db, RowOf(s, h), s.handlers[h].job, s.handlers[h].phase;
    || (e.TryClaim? && e.handler == h && e.fault != RolledBack
        && !Ended(row.status) && Served(db, row.scope.tenant) && !Worked(row, db.now))
    || (e.TryCommit? && e.handler == h && e.fault != RolledBack
        && exists token: Token :: Shows(s, h, token) && !CommitBarred(db, e.payload, e.solved, job, Some(token))
                                  && !Ended(row.status) && row.token == Some(token) && e.payload.draftRevision != MAX_INTEGER)
    || (e.StoreFailed? && e.handler == h && e.fault != RolledBack
        && phase.Condemned? && MayFail(db, row.scope, job, phase.held)
        && row.charge.Credits? && row.scope.tenant in db.tenants && WalletTakes(db, job))
    || (e.StoreDeadLettered? && e.handler == h && e.fault != RolledBack
        && phase.Faulted? && MayFail(db, row.scope, job, phase.held)
        && row.charge.Credits? && row.scope.tenant in db.tenants && WalletTakes(db, job))
    || (e.StoreRetrying? && e.handler == h && e.fault != RolledBack
        && phase.Replaced? && !Ended(row.status) && Rightful(row, phase.held, db.now))
  }

  /** The row is written if the transaction takes effect, and otherwise the tables stay as they are. */
  ghost predicate WrittenAsTold(s: System, e: Event, t: System, h: nat)
    requires AtWork(s, h) && Can(s, e) && Actor(e) == Some(h)
  {
    var job := s.handlers[h].job;
    if TakesEffect(s, e, h) then job in t.books.db.jobs && RowAfter(s, e, RowOf(s, h), t.books.db.jobs[job])
    else t.books.db == s.books.db
  }

  lemma ToldClaimWrites(s: System, h: nat, token: Token, leaseLength: int, fault: Fault)
    requires AtWork(s, h) && Can(s, TryClaim(h, token, leaseLength, fault)) && ClaimTold(s, h, ClaimOf(s, h, token, leaseLength).1)
    ensures WrittenAsTold(s, TryClaim(h, token, leaseLength, fault), Claims(s, h, token, leaseLength, fault), h)
  {
    ClaimRowInFields(s.books.db, JobScope(s, h), s.handlers[h].job, s.handlers[h].retry, token, leaseLength);
  }

  lemma ClaimWrites(s: System, h: nat, token: Token, leaseLength: int, fault: Fault)
    requires History.Inv(s.books) && AtWork(s, h) && Can(s, TryClaim(h, token, leaseLength, fault))
    ensures WrittenAsTold(s, TryClaim(h, token, leaseLength, fault), Claims(s, h, token, leaseLength, fault), h)
  {
    ClaimIsTold(s, h, token, leaseLength);
    ToldClaimWrites(s, h, token, leaseLength, fault);
  }

  lemma ToldCommitWrites(s: System, h: nat, token: Token, p: SolvePayload, solved: seq<Shift>, fault: Fault, outcome: Outcome, t: System)
    requires AtWork(s, h) && Can(s, TryCommit(h, p, solved, fault)) && Shows(s, h, token) && CommitTold(s, h, token, p, solved, outcome)
    requires outcome == Done ==>
               (!CommitBarred(s.books.db, p, solved, s.handlers[h].job, Some(token))
                && (RowOf(s, h).status == Succeeded || RowOf(s, h).token == Some(token)))
    requires (!CommitBarred(s.books.db, p, solved, s.handlers[h].job, Some(token)) && !Ended(RowOf(s, h).status)
              && RowOf(s, h).token == Some(token) && p.draftRevision != MAX_INTEGER) ==> outcome == Done
    requires if outcome == Done && RowOf(s, h).status != Succeeded && fault != RolledBack
             then s.handlers[h].job in t.books.db.jobs
                  && t.books.db.jobs[s.handlers[h].job]
                     == Job(RowOf(s, h).scope, Succeeded, None, None, RowOf(s, h).charge, s.handlers[h].retry, Some(|solved|))
             else t.books.db == s.books.db
    ensures WrittenAsTold(s, TryCommit(h, p, solved, fault), t, h)
  {
    assert forall other: Token :: Shows(s, h, other) ==> other == token;
    assert CommitBarred(s.books.db, p, solved, s.handlers[h].job, Some(token)) <==> outcome == NonRetryable;
  }

  /** Of a commit that is reported done, and of one that must be. */
  lemma DoneCommit(s: System, h: nat, token: Token, p: SolvePayload, solved: seq<Shift>, outcome: Outcome)
    requires History.Inv(s.books) && AtWork(s, h)
    requires outcome == Commit(s.books.db, p, solved, s.handlers[h].job, s.handlers[h].retry, Some(token)).1
    ensures CommitTold(s, h, token, p, solved, outcome)
    ensures var barred, row := CommitBarred(s.books.db, p, solved, s.handlers[h].job, Some(token)), RowOf(s, h);
            && (outcome == Done ==> !barred && (row.status == Succeeded || row.token == Some(token)))
            && (!barred && !Ended(row.status) && row.token == Some(token) && p.draftRevision != MAX_INTEGER ==> outcome == Done)
  {
    CommitInFields(s.books, p, solved, s.handlers[h].job, s.handlers[h].retry, Some(token));
  }

  lemma CommitWrites(s: System, h: nat, p: SolvePayload, solved: seq<Shift>, fault: Fault)
    requires History.Inv(s.books) && AtWork(s, h) && Can(s, TryCommit(h, p, solved, fault))
    ensures WrittenAsTold(s, TryCommit(h, p, solved, fault), Commits(s, h, p, solved, fault), h)
  {
    var token := s.handlers[h].phase.token;
    var outcome := Commit(s.books.db, p, solved, s.handlers[h].job, s.handlers[h].retry, Some(token)).1;
    DoneCommit(s, h, token, p, solved, outcome);
    CommitStoresRow(s, h, p, solved, fault, outcome);
    ToldCommitWrites(s, h, token, p, solved, fault, outcome, Commits(s, h, p, solved, fault));
  }

  lemma CommitStoresRow(s: System, h: nat, p: SolvePayload, solved: seq<Shift>, fault: Fault, outcome: Outcome)
    requires AtWork(s, h) && Can(s, TryCommit(h, p, solved, fault))
    requires outcome == Commit(s.books.db, p, solved, s.handlers[h].job, s.handlers[h].retry, Some(s.handlers[h].phase.token)).1
    ensures var t := Commits(s, h, p, solved, fault);
            if outcome == Done && RowOf(s, h).status != Succeeded && fault != RolledBack
            then s.handlers[h].job in t.books.db.jobs
                 && t.books.db.jobs[s.handlers[h].job]
                    == Job(RowOf(s, h).scope, Succeeded, None, None, RowOf(s, h).charge, s.handlers[h].retry, Some(|solved|))
            else t.books.db == s.books.db
  {
    CommitRowInFields(s.books.db, p, solved, s.handlers[h].job, s.handlers[h].retry, Some(s.handlers[h].phase.token));
  }

  lemma RefundWrites(s: System, h: nat, status: Status, retry: nat, held: Option<Token>)
    requires History.Inv(s.books) && AtWork(s, h) && (status == Failed || status == DeadLettered)
    ensures RowOf(s, h).charge.Credits? && RowOf(s, h).scope.tenant in s.books.db.tenants
    ensures var after, job := RefundOf(s, h, status, retry, held).0, s.handlers[h].job;
            if MayFail(s.books.db, RowOf(s, h).scope, job, held) && WalletTakes(s.books.db, job)
            then job in after.jobs && after.jobs[job] == Job(RowOf(s, h).scope, status, None, None, RowOf(s, h).charge, retry, None)
            else after == s.books.db
  {
    TerminalizeInFields(s.books, JobScope(s, h), s.handlers[h].job, status, retry, held);
    if MayFail(s.books.db, JobScope(s, h), s.handlers[h].job, held) {
      FailureInFields(s.books, JobScope(s, h), s.handlers[h].job, status, retry, held);
    }
  }

  lemma FailureWrites(s: System, h: nat, fault: Fault)
    requires History.Inv(s.books) && AtWork(s, h) && Can(s, StoreFailed(h, fault))
    ensures WrittenAsTold(s, StoreFailed(h, fault), Fails(s, h, fault), h)
  {
    RefundWrites(s, h, Failed, s.handlers[h].retry, s.handlers[h].phase.held);
  }

  lemma DeadLetterWrites(s: System, h: nat, fault: Fault)
    requires History.Inv(s.books) && AtWork(s, h) && Can(s, StoreDeadLettered(h, fault))
    ensures WrittenAsTold(s, StoreDeadLettered(h, fault), Delivery.DeadLetters(s, h, fault), h)
  {
    RefundWrites(s, h, DeadLettered, s.maxRetries, s.handlers[h].phase.held);
  }

  lemma MarkWrites(s: System, h: nat, fault: Fault)
    requires AtWork(s, h) && Can(s, StoreRetrying(h, fault))
    ensures WrittenAsTold(s, StoreRetrying(h, fault), Marks(s, h, fault), h)
  {
    MarkInFields(s.books.db, JobScope(s, h), s.handlers[h].job, s.handlers[h].retry + 1, s.handlers[h].phase.held);
  }

  lemma OtherStepWrites(s: System, e: Event, h: nat)
    requires AtWork(s, h) && Can(s, e) && Actor(e) == Some(h)
    requires e.SkipCompleted? || e.EngineFails? || e.EngineRejects? || e.Publish?
    ensures WrittenAsTold(s, e, Next(s, e), h)
  {
  }

  /** In every run a handler's transaction writes its row exactly when it takes effect, also where it reports an error. */
  lemma RowsAreWrittenExactly(states: seq<System>, events: seq<Event>, i: nat, h: nat)
    requires Run(states, events) && i < |events| && Actor(events[i]) == Some(h)
    ensures Can(states[i], events[i]) && AtWork(states[i], h)
    ensures WrittenAsTold(states[i], events[i], states[i + 1], h)
  {
    var s, e := states[i], events[i];
    RunTakesStep(states, events, i);
    OwnStepJob(s, e, h);
    WorkerIsAtWork(states, events, i, h);
    match e {
      case TryClaim(_, token, leaseLength, fault) => ClaimWrites(s, h, token, leaseLength, fault);
      case TryCommit(_, p, solved, fault) => CommitWrites(s, h, p, solved, fault);
      case StoreFailed(_, fault) => FailureWrites(s, h, fault);
      case StoreDeadLettered(_, fault) => DeadLetterWrites(s, h, fault);
      case StoreRetrying(_, fault) => MarkWrites(s, h, fault);
      case _ => OtherStepWrites(s, e, h);
    }
  }

  // ---- why a job fails, and why it is given to the dead letters ----

  /** The handler's last step before point `i`, event `k`, met a refusal. */
  ghost predicate LastMetRefusal(states: seq<System>, events: seq<Event>, k: nat, i: nat, h: nat)
    requires |states| == |events| + 1
  {
    LastStep(events, k, i, h) && AtWork(states[k], h) && MeetsRefusal(states[k], events[k], h)
  }

  ghost predicate LastMetFault(states: seq<System>, events: seq<Event>, k: nat, i: nat, h: nat)
    requires |states| == |events| + 1
  {
    LastStep(events, k, i, h) && AtWork(states[k], h) && MeetsFault(states[k], events[k], h)
  }

  ghost predicate LastMetBusy(states: seq<System>, events: seq<Event>, k: nat, i: nat, h: nat)
    requires |states| == |events| + 1
  {
    LastStep(events, k, i, h) && AtWork(states[k], h) && MeetsBusy(states[k], events[k], h)
  }

  /**
   In every run a job becomes FAILED only when a handler of it stores that, and the last thing that handler met
   is a refusal: the engine rejected the input, or a claim or a commit was refused for good.
   */
  lemma FailedHasCause(states: seq<System>, events: seq<Event>, i: nat, job: string)
    requires Run(states, events) && i < |events|
    requires job in states[i].books.db.jobs && job in states[i + 1].books.db.jobs
    requires states[i].books.db.jobs[job].status != Failed && states[i + 1].books.db.jobs[job].status == Failed
    ensures events[i].StoreFailed?
    ensures var h := events[i].handler;
            && In(states[i], h) && states[i].handlers[h].job == job
            && states[i + 1].books.db.jobs[job].retryCount == states[i].handlers[h].retry
            && exists k :: LastMetRefusal(states, events, k, i, h)
  {
    RowsMoveAsTold(states, events, i, job);
    var h := events[i].handler;
    var k := HasLastStep(states, events, i, h);
    StepLeadsInRun(states, events, k, h);
    assert LastMetRefusal(states, events, k, i, h);
  }

  /** A job becomes DEAD_LETTERED only when a handler stores that after a fault with its retries used up. */
  lemma DeadLetteredHasCause(states: seq<System>, events: seq<Event>, i: nat, job: string)
    requires Run(states, events) && i < |events|
    requires job in states[i].books.db.jobs && job in states[i + 1].books.db.jobs
    requires states[i].books.db.jobs[job].status != DeadLettered && states[i + 1].books.db.jobs[job].status == DeadLettered
    ensures events[i].StoreDeadLettered?
    ensures var h := events[i].handler;
            && In(states[i], h) && states[i].handlers[h].job == job && states[i].maxRetries <= states[i].handlers[h].retry
            && states[i + 1].books.db.jobs[job].retryCount == states[i].maxRetries
            && exists k :: LastMetFault(states, events, k, i, h)
  {
    RowsMoveAsTold(states, events, i, job);
    var h := events[i].handler;
    var k := HasLastStep(states, events, i, h);
    StepLeadsInRun(states, events, k, h);
    assert LastMetFault(states, events, k, i, h);
  }

  // ---- where messages come from ----

  lemma NewMessageIs(s: System, e: Event, id: nat)
    requires Can(s, e) && id !in s.messages && id in Next(s, e).messages
    ensures id == s.nextId
    ensures var m := Next(s, e).messages[id];
            || (e.Outside? && e.step.Enqueue? && m == Message(e.step.job, 0, Ready))
            || (e.Republish? && m == Message(e.job, 0, Ready))
            || (e.Publish? && In(s, e.handler)
                && m == Message(s.handlers[e.handler].job, m.retry, Delayed(QueueIndex(m.retry)))
                && m.retry == s.handlers[e.handler].retry + if s.handlers[e.handler].phase.Faulted? then 1 else 0)
  {
  }

  /**
   In every run a new message is the first of a job, the first again, or a copy by a handler that last met a fault
   with retries left, counted one higher, or that last found its job busy, with the same count.
   */
  lemma MessagesHaveCauses(states: seq<System>, events: seq<Event>, i: nat, id: nat)
    requires Run(states, events) && i < |events| && id !in states[i].messages && id in states[i + 1].messages
    ensures var m, e := states[i + 1].messages[id], events[i];
            || (e.Outside? && e.step.Enqueue? && m == Message(e.step.job, 0, Ready))
            || (e.Republish? && m == Message(e.job, 0, Ready))
            || (e.Publish? && In(states[i], e.handler)
                && var w := states[i].handlers[e.handler];
                   || (m == Message(w.job, w.retry + 1, Delayed(QueueIndex(w.retry + 1))) && w.retry < states[i].maxRetries
                       && exists k :: LastMetFault(states, events, k, i, e.handler))
                   || (m == Message(w.job, w.retry, Delayed(QueueIndex(w.retry)))
                       && exists k :: LastMetBusy(states, events, k, i, e.handler)))
  {
    var e := events[i];
    RunTakesStep(states, events, i);
    NewMessageIs(states[i], e, id);
    if e.Publish? {
      var h := e.handler;
      var k := HasLastStep(states, events, i, h);
      StepLeadsInRun(states, events, k, h);
      if states[i].handlers[h].phase.Faulted? {
        assert LastMetFault(states, events, k, i, h);
      } else {
        assert LastMetBusy(states, events, k, i, h);
      }
    }
  }

  // ---- what a handler owes ----

  lemma OtherStepRests(states: seq<System>, events: seq<Event>, n: nat, h: nat)
    requires Run(states, events) && n < |events| && Actor(events[n]) != Some(h) && In(states[n + 1], h) && h < states[n].nextId
    ensures In(states[n], h) && states[n + 1].handlers[h] == states[n].handlers[h]
  {
    RunTakesStep(states, events, n);
    OthersStay(states[n], events[n], h);
  }

  // ---- nothing follows the end ----

  lemma SettlingRests(s: System, e: Event, h: nat)
    requires Can(s, e) && In(s, h) && Settling(s.handlers[h].phase)
    ensures Actor(e) != Some(h)
  {
  }

  /** A handler that is known at one point and there at a later one was there all the time. */
  lemma {:induction false} WasThere(states: seq<System>, events: seq<Event>, j: nat, i: nat, h: nat)
    requires Run(states, events) && j <= i < |states| && h < states[j].nextId && In(states[i], h)
    ensures In(states[j], h)
  {
    if j < i {
      IdsGrowInRun(states, events, j, i - 1);
      if Actor(events[i - 1]) == Some(h) {
        RunTakesStep(states, events, i - 1);
        OwnStepJob(states[i - 1], events[i - 1], h);
      } else {
        OtherStepRests(states, events, i - 1, h);
      }
      WasThere(states, events, j, i - 1, h);
    }
  }

  lemma {:induction false} EndedRests(states: seq<System>, events: seq<Event>, k: nat, i: nat, h: nat)
    requires Run(states, events) && k < i < |states| && In(states[k + 1], h) && Settling(states[k + 1].handlers[h].phase)
    requires In(states[i], h)
    ensures Rests(events, k, i, h)
  {
    if k + 1 < i {
      HandlerIsKnown(states, events, k + 1, i - 1, h);
      WasThere(states, events, i - 1, i, h);
      EndedRests(states, events, k, i - 1, h);
      HandlerRests(states, events, k, i - 1, h);
      RunTakesStep(states, events, i - 1);
      SettlingRests(states[i - 1], events[i - 1], h);
    }
  }

  /**
   After a step that ends its work a handler takes no other: a job found finished, a commit that went through or
   came too late, a stored failure or retry mark, and an unconfirmed copy are the last word.
   */
  lemma NothingFollowsTheEnd(states: seq<System>, events: seq<Event>, k: nat, i: nat, h: nat)
    requires Run(states, events) && k < i < |events| && Actor(events[k]) == Some(h)
    requires AtWork(states[k], h) && MeetsEnd(states[k], events[k], h)
    ensures Actor(events[i]) != Some(h)
  {
    StepLeadsInRun(states, events, k, h);
    RunTakesStep(states, events, i);
    if Actor(events[i]) == Some(h) {
      OwnStepJob(states[i], events[i], h);
      EndedRests(states, events, k, i, h);
      HandlerRests(states, events, k, i, h);
      SettlingRests(states[i], events[i], h);
    }
  }

  lemma FinishTakesMessage(s: System, h: nat)
    requires Can(s, Finish(h)) && Owns(s, h)
    ensures var id, t := s.handlers[h].message, Next(s, Finish(h));
            && (id in t.messages <==> s.handlers[h].phase.Requeueing?)
            && (id in t.messages ==> t.messages[id] == s.messages[id].(place := Ready))
            && !In(t, h)
  {
  }

  /**
   In every run a handler that finishes takes its message away for good, unless its last step sends it back:
   then the message is ready again, for the same job and with the same count.
   */
  lemma FinishSettlesExactly(states: seq<System>, events: seq<Event>, i: nat, h: nat) returns (k: nat)
    requires Run(states, events) && i < |events| && events[i] == Finish(h)
    ensures In(states[i], h) && LastStep(events, k, i, h) && AtWork(states[k], h)
    ensures Owns(states[i], h) ==>
              var id, w := states[i].handlers[h].message, states[i].handlers[h];
              && (id in states[i + 1].messages <==> SendsBack(states[k], events[k], h))
              && (id in states[i + 1].messages ==> states[i + 1].messages[id] == Message(w.job, w.retry, Ready))
  {
    RunTakesStep(states, events, i);
    k := HasLastStep(states, events, i, h);
    StepLeadsInRun(states, events, k, h);
    RunKeepsInv(states, events, i);
    assert HandlerOk(states[i], h);
    if Owns(states[i], h) {
      FinishTakesMessage(states[i], h);
    }
  }

  lemma HandlerIsKnown(states: seq<System>, events: seq<Event>, k: nat, i: nat, h: nat)
    requires Run(states, events) && k <= i < |states| && In(states[k], h)
    ensures h < states[i].nextId
  {
    RunKeepsInv(states, events, k);
    assert HandlerOk(states[k], h);
    IdsGrowInRun(states, events, k, i);
  }

  lemma {:induction false} HandlerRests(states: seq<System>, events: seq<Event>, k: nat, i: nat, h: nat)
    requires Run(states, events) && k < i < |states| && In(states[k + 1], h) && In(states[i], h) && Rests(events, k, i, h)
    ensures states[i].handlers[h] == states[k + 1].handlers[h]
  {
    if k + 1 < i {
      HandlerIsKnown(states, events, k + 1, i - 1, h);
      OtherStepRests(states, events, i - 1, h);
      HandlerRests(states, events, k, i - 1, h);
    }
  }

  lemma {:induction false} IdsGrowInRun(states: seq<System>, events: seq<Event>, k: nat, i: nat)
    requires Run(states, events) && k <= i < |states|
    ensures states[k].nextId <= states[i].nextId && states[k].maxRetries == states[i].maxRetries
  {
    if k < i {
      IdsGrowInRun(states, events, k, i - 1);
      RunTakesStep(states, events, i - 1);
      RunKeepsInv(states, events, i - 1);
      EventGrows(states[i - 1], events[i - 1]);
    }
  }

  /** After a refusal the next step of the handler, if it lives to take one, is to store FAILED. */
  lemma RefusalsAreStored(states: seq<System>, events: seq<Event>, k: nat, i: nat, h: nat)
    requires Run(states, events) && k < i < |events| && AtWork(states[k], h) && MeetsRefusal(states[k], events[k], h)
    requires Rests(events, k, i, h) && (Actor(events[i]) == Some(h) || events[i] == Finish(h))
    ensures events[i].StoreFailed?
  {
    StepLeadsInRun(states, events, k, h);
    RunTakesStep(states, events, i);
    HandlerRests(states, events, k, i, h);
  }

  /** After a fault the next step is a copy while retries are left, and otherwise to store DEAD_LETTERED. */
  lemma FaultsAreRetriedOrDeadLettered(states: seq<System>, events: seq<Event>, k: nat, i: nat, h: nat)
    requires Run(states, events) && k < i < |events| && AtWork(states[k], h) && MeetsFault(states[k], events[k], h)
    requires Rests(events, k, i, h) && (Actor(events[i]) == Some(h) || events[i] == Finish(h))
    ensures if states[k].handlers[h].retry < states[k].maxRetries then events[i].Publish? else events[i].StoreDeadLettered?
  {
    StepLeadsInRun(states, events, k, h);
    RunTakesStep(states, events, i);
    RunTakesStep(states, events, k);
    HandlerRests(states, events, k, i, h);
    IdsGrowInRun(states, events, k, i);
    OwnStepKeepsRetry(states[k], events[k], h);
  }

  lemma OwnStepKeepsRetry(s: System, e: Event, h: nat)
    requires Can(s, e) && Actor(e) == Some(h)
    ensures In(s, h) && In(Next(s, e), h) && Next(s, e).handlers[h] == s.handlers[h].(phase := Next(s, e).handlers[h].phase)
  {
  }

  // ---- retryable faults are retried ----

  /** Between the two points the handler's own steps are a confirmed copy, event `p`, and nothing else but a retry mark. */
  predicate CopiedAt(events: seq<Event>, k: nat, p: nat, j: nat, h: nat) {
    && k < p < j <= |events| && events[p] == Publish(h, Confirmed)
    && forall m :: k < m < j && m != p && Actor(events[m]) == Some(h) ==> events[m].StoreRetrying?
  }

  /** The copy is the job's message, put into the queue of its count. */
  predicate CopyIs(states: seq<System>, p: nat, job: string, retry: nat) {
    && p + 1 < |states| && states[p].nextId !in states[p].messages && states[p].nextId in states[p + 1].messages
    && states[p + 1].messages[states[p].nextId] == Message(job, retry, Delayed(QueueIndex(retry)))
  }

  /** No copy that the handler publishes between the two points is lost or unconfirmed. */
  predicate CopiesConfirmed(events: seq<Event>, k: nat, i: nat, h: nat) {
    forall m :: k < m < i <= |events| && events[m].Publish? && events[m].handler == h ==> events[m].confirm == Confirmed
  }

  /** Where the handler is on its way from a fault, or a busy claim, to the end. */
  ghost predicate Copying(states: seq<System>, events: seq<Event>, k: nat, j: nat, h: nat, w: Handler, raise: nat)
    requires |states| == |events| + 1
  {
    && k < j < |states| && In(states[j], h) && states[j].handlers[h] == w.(phase := states[j].handlers[h].phase)
    && var phase := states[j].handlers[h].phase;
       || (Rests(events, k, j, h) && if raise == 1 then phase.Faulted? else phase.Delaying?)
       || ((phase.Replaced? || phase.Acking?) && Copied(states, events, k, j, h, w.job, w.retry + raise))
  }

  lemma OwnCopyStep(s: System, e: Event, t: System, h: nat)
    requires s.nextId !in s.messages && Can(s, e) && t == Next(s, e) && Actor(e) == Some(h)
    requires s.handlers[h].phase.Delaying? || (s.handlers[h].phase.Faulted? && s.handlers[h].retry < s.maxRetries)
    ensures e.Publish?
    ensures e.confirm == Confirmed ==>
              var w := s.handlers[h];
              var retry := w.retry + if w.phase.Faulted? then 1 else 0;
              && In(t, h) && t.handlers[h] == w.(phase := t.handlers[h].phase)
              && (t.handlers[h].phase.Replaced? || t.handlers[h].phase.Acking?)
              && s.nextId in t.messages && t.messages[s.nextId] == Message(w.job, retry, Delayed(QueueIndex(retry)))
  {
  }

  lemma NextIdIsNew(states: seq<System>, events: seq<Event>, j: nat)
    requires Run(states, events) && j < |states|
    ensures states[j].nextId !in states[j].messages
  {
    RunKeepsInv(states, events, j);
    assert states[j].nextId in states[j].messages ==> MessageOk(states[j], states[j].nextId);
  }

  lemma OwnMarkStep(s: System, e: Event, h: nat)
    requires Can(s, e) && Actor(e) == Some(h) && (s.handlers[h].phase.Replaced? || s.handlers[h].phase.Acking?)
    ensures e.StoreRetrying? && In(Next(s, e), h) && Next(s, e).handlers[h] == s.handlers[h].(phase := Acking)
  {
  }

  /** The copy is out: the handler has at most its retry mark left to store. */
  ghost predicate Copied(states: seq<System>, events: seq<Event>, k: nat, j: nat, h: nat, job: string, retry: nat)
    requires |states| == |events| + 1
  {
    exists p :: CopiedAt(events, k, p, j, h) && CopyIs(states, p, job, retry)
  }

  lemma CopiedGoesOn(states: seq<System>, events: seq<Event>, k: nat, j: nat, h: nat, job: string, retry: nat)
    requires |states| == |events| + 1 && Copied(states, events, k, j, h, job, retry)
    requires j < |events| && (Actor(events[j]) == Some(h) ==> events[j].StoreRetrying?)
    ensures Copied(states, events, k, j + 1, h, job, retry)
  {
    var p :| CopiedAt(events, k, p, j, h) && CopyIs(states, p, job, retry);
    assert CopiedAt(events, k, p, j + 1, h);
  }

  lemma RestsOn(events: seq<Event>, k: nat, j: nat, h: nat)
    requires Rests(events, k, j, h) && j < |events| && Actor(events[j]) != Some(h)
    ensures Rests(events, k, j + 1, h)
  {
  }

  lemma FirstCopy(states: seq<System>, events: seq<Event>, k: nat, j: nat, h: nat, job: string, retry: nat)
    requires |states| == |events| + 1 && k < j < |events| && Rests(events, k, j, h) && events[j] == Publish(h, Confirmed)
    requires CopyIs(states, j, job, retry)
    ensures Copied(states, events, k, j + 1, h, job, retry)
  {
    assert CopiedAt(events, k, j, j + 1, h);
  }

  lemma CopyStep(states: seq<System>, events: seq<Event>, k: nat, j: nat, h: nat, w: Handler, raise: nat)
    requires Run(states, events) && Copying(states, events, k, j, h, w, raise) && j < |events|
    requires In(states[j + 1], h) && CopiesConfirmed(events, k, j + 1, h)
    requires raise <= 1 && (raise == 1 ==> w.retry < states[j].maxRetries)
    ensures Copying(states, events, k, j + 1, h, w, raise)
  {
    if Actor(events[j]) != Some(h) {
      HandlerIsKnown(states, events, j, j, h);
      OtherStepRests(states, events, j, h);
      if Copied(states, events, k, j, h, w.job, w.retry + raise) {
        CopiedGoesOn(states, events, k, j, h, w.job, w.retry + raise);
      }
      if Rests(events, k, j, h) {
        RestsOn(events, k, j, h);
      }
    } else {
      OwnCopyingStep(states, events, k, j, h, w, raise);
    }
  }

  lemma OwnCopyingStep(states: seq<System>, events: seq<Event>, k: nat, j: nat, h: nat, w: Handler, raise: nat)
    requires Run(states, events) && Copying(states, events, k, j, h, w, raise) && j < |events| && Actor(events[j]) == Some(h)
    requires CopiesConfirmed(events, k, j + 1, h)
    requires raise <= 1 && (raise == 1 ==> w.retry < states[j].maxRetries)
    ensures Copying(states, events, k, j + 1, h, w, raise)
  {
    RunTakesStep(states, events, j);
    if states[j].handlers[h].phase.Replaced? || states[j].handlers[h].phase.Acking? {
      OwnMarkStep(states[j], events[j], h);
      CopiedGoesOn(states, events, k, j, h, w.job, w.retry + raise);
    } else {
      NextIdIsNew(states, events, j);
      OwnCopyStep(states[j], events[j], states[j + 1], h);
      FirstCopy(states, events, k, j, h, w.job, w.retry + raise);
    }
  }

  lemma {:induction false} CopyingGoesOn(states: seq<System>, events: seq<Event>, k: nat, i: nat, h: nat, w: Handler, raise: nat)
    requires Run(states, events) && k + 1 <= i < |states| && Copying(states, events, k, k + 1, h, w, raise)
    requires In(states[i], h) && CopiesConfirmed(events, k, i, h)
    requires raise <= 1 && (raise == 1 ==> w.retry < states[k].maxRetries)
    ensures Copying(states, events, k, i, h, w, raise)
    decreases i
  {
    if k + 1 < i {
      HandlerIsKnown(states, events, k + 1, i - 1, h);
      WasThere(states, events, i - 1, i, h);
      CopyingGoesOn(states, events, k, i - 1, h, w, raise);
      IdsGrowInRun(states, events, k, i - 1);
      CopyStep(states, events, k, i - 1, h, w, raise);
    }
  }

  lemma FinishingIsCopied(states: seq<System>, events: seq<Event>, k: nat, i: nat, h: nat, w: Handler, raise: nat) returns (p: nat)
    requires Run(states, events) && i < |events| && events[i] == Finish(h) && Copying(states, events, k, i, h, w, raise)
    ensures CopiedAt(events, k, p, i, h) && CopyIs(states, p, w.job, w.retry + raise)
  {
    RunTakesStep(states, events, i);
    p :| CopiedAt(events, k, p, i, h) && CopyIs(states, p, w.job, w.retry + raise);
  }

  /**
   A handler that meets a fault with retries left, and finishes without a lost or unconfirmed copy, has published one
   copy, for the same job and counted one higher. Apart from that it has at most stored the retry mark, so it has
   not ended the job.
   */
  lemma RetryableFaultsAreRetried(states: seq<System>, events: seq<Event>, k: nat, i: nat, h: nat) returns (p: nat)
    requires Run(states, events) && k < i < |events| && Actor(events[k]) == Some(h)
    requires AtWork(states[k], h) && MeetsFault(states[k], events[k], h)
    requires states[k].handlers[h].retry < states[k].maxRetries
    requires events[i] == Finish(h) && CopiesConfirmed(events, k, i, h)
    ensures CopiedAt(events, k, p, i, h)
    ensures CopyIs(states, p, states[k].handlers[h].job, states[k].handlers[h].retry + 1)
  {
    var w := states[k].handlers[h];
    StepLeadsInRun(states, events, k, h);
    RunTakesStep(states, events, k);
    RunTakesStep(states, events, i);
    OwnStepKeepsRetry(states[k], events[k], h);
    assert Copying(states, events, k, k + 1, h, w, 1);
    CopyingGoesOn(states, events, k, i, h, w, 1);
    p := FinishingIsCopied(states, events, k, i, h, w, 1);
  }

  /** The same for a handler that finds its job busy: the copy keeps the count. */
  lemma BusyJobsAreCopied(states: seq<System>, events: seq<Event>, k: nat, i: nat, h: nat) returns (p: nat)
    requires Run(states, events) && k < i < |events| && Actor(events[k]) == Some(h)
    requires AtWork(states[k], h) && MeetsBusy(states[k], events[k], h)
    requires events[i] == Finish(h) && CopiesConfirmed(events, k, i, h)
    ensures CopiedAt(events, k, p, i, h)
    ensures CopyIs(states, p, states[k].handlers[h].job, states[k].handlers[h].retry)
  {
    var w := states[k].handlers[h];
    StepLeadsInRun(states, events, k, h);
    RunTakesStep(states, events, k);
    RunTakesStep(states, events, i);
    OwnStepKeepsRetry(states[k], events[k], h);
    assert Copying(states, events, k, k + 1, h, w, 0);
    CopyingGoesOn(states, events, k, i, h, w, 0);
    p := FinishingIsCopied(states, events, k, i, h, w, 0);
  }

  // ---- only winners of a claim solve ----

  lemma TokenOfStep(s: System, e: Event, h: nat)
    requires Can(s, e) && Actor(e) == Some(h) && Held(Next(s, e).handlers[h].phase).Some?
    ensures Held(Next(s, e).handlers[h].phase) == Held(s.handlers[h].phase)
            || (e.TryClaim? && e.fault.Clean? && Next(s, e).handlers[h].phase == Executing(e.token))
  {
  }

  /** The handler has won a claim with the token at event `c`. */
  ghost predicate WonAt(states: seq<System>, events: seq<Event>, c: nat, h: nat, token: Token)
    requires |states| == |events| + 1
  {
    && c < |events| && events[c].TryClaim? && events[c].handler == h && events[c].token == token
    && AtWork(states[c], h) && WinsClaim(states[c], events[c], h)
  }

  /** In every run the token a handler shows is the one its own claim won. */
  lemma {:induction false} HeldTokenWasWon(states: seq<System>, events: seq<Event>, i: nat, h: nat) returns (c: nat)
    requires Run(states, events) && i < |states| && In(states[i], h) && Held(states[i].handlers[h].phase).Some?
    ensures c < i && WonAt(states, events, c, h, Held(states[i].handlers[h].phase).value)
  {
    RunTakesStep(states, events, i - 1);
    if Actor(events[i - 1]) == Some(h) {
      StepLeadsInRun(states, events, i - 1, h);
      TokenOfStep(states[i - 1], events[i - 1], h);
      if Held(states[i].handlers[h].phase) == Held(states[i - 1].handlers[h].phase) {
        c := HeldTokenWasWon(states, events, i - 1, h);
      } else {
        c := i - 1;
      }
    } else {
      OthersStay(states[i - 1], events[i - 1], h);
      c := HeldTokenWasWon(states, events, i - 1, h);
    }
  }

  /** A handler solves, and commits, right after it has won the claim: its last step before is that claim. */
  lemma OnlyWinnersSolve(states: seq<System>, events: seq<Event>, i: nat, h: nat) returns (k: nat)
    requires Run(states, events) && i < |events| && Actor(events[i]) == Some(h)
    requires events[i].EngineFails? || events[i].EngineRejects? || events[i].TryCommit?
    ensures LastStep(events, k, i, h) && AtWork(states[k], h) && WinsClaim(states[k], events[k], h)
  {
    RunTakesStep(states, events, i);
    k := HasLastStep(states, events, i, h);
    StepLeadsInRun(states, events, k, h);
  }

  // ---- what a worker remembers ----

  lemma CommitRemembers(s: System, h: nat, p: SolvePayload, solved: seq<Shift>, fault: Fault, outcome: Outcome)
    requires Can(s, TryCommit(h, p, solved, fault))
    requires outcome == Commit(s.books.db, p, solved, s.handlers[h].job, s.handlers[h].retry, Some(s.handlers[h].phase.token)).1
    ensures Commits(s, h, p, solved, fault).completed
            == s.completed + if fault == Clean && outcome == Done then {(s.handlers[h].worker, s.handlers[h].job)} else {}
  {
  }

  /** The commit is neither barred nor too late: the job is already done, or the handler's own to finish. */
  ghost predicate CommitsOrFindsDone(s: System, h: nat, p: SolvePayload, solved: seq<Shift>)
    requires AtWork(s, h)
  {
    exists token: Token ::
      && Shows(s, h, token) && !CommitBarred(s.books.db, p, solved, s.handlers[h].job, Some(token))
      && (RowOf(s, h).status == Succeeded || (RowOf(s, h).token == Some(token) && p.draftRevision != MAX_INTEGER))
  }

  lemma DoneExactly(s: System, h: nat, token: Token, p: SolvePayload, solved: seq<Shift>)
    requires History.Inv(s.books) && AtWork(s, h) && Shows(s, h, token)
    ensures Commit(s.books.db, p, solved, s.handlers[h].job, s.handlers[h].retry, Some(token)).1 == Done
            <==> CommitsOrFindsDone(s, h, p, solved)
  {
    CommitInFields(s.books, p, solved, s.handlers[h].job, s.handlers[h].retry, Some(token));
    assert History.RowOk(s.books, s.handlers[h].job);
    assert forall other: Token :: Shows(s, h, other) ==> other == token;
  }

  /** A worker comes to remember a job exactly when a commit is reported done to it. */
  lemma CommitsAreRemembered(states: seq<System>, events: seq<Event>, i: nat, h: nat)
    requires Run(states, events) && i < |events| && events[i].TryCommit? && events[i].handler == h
    ensures AtWork(states[i], h)
    ensures states[i + 1].completed
            == states[i].completed + if events[i].fault == Clean && CommitsOrFindsDone(states[i], h, events[i].payload, events[i].solved)
                                     then {(states[i].handlers[h].worker, states[i].handlers[h].job)} else {}
  {
    var s, e := states[i], events[i];
    RunTakesStep(states, events, i);
    WorkerIsAtWork(states, events, i, h);
    var token := s.handlers[h].phase.token;
    DoneExactly(s, h, token, e.payload, e.solved);
    CommitRemembers(s, h, e.payload, e.solved, e.fault,
                    Commit(s.books.db, e.payload, e.solved, s.handlers[h].job, s.handlers[h].retry, Some(token)).1);
  }

  // ---- what is owed can be done ----

  /** A handler that lives on can always take the step it owes, however that step then ends. */
  lemma OwedStepsCanHappen(states: seq<System>, events: seq<Event>, k: nat, i: nat, h: nat, fault: Fault, confirm: Confirm)
    requires Run(states, events) && k < i < |states| && Actor(events[k]) == Some(h) && Rests(events, k, i, h) && In(states[i], h)
    ensures AtWork(states[k], h)
    ensures var s, before, e := states[i], states[k], events[k];
            var w := before.handlers[h];
            && (WinsClaim(before, e, h) ==> Can(s, EngineFails(h)) && Can(s, EngineRejects(h)))
            && (MeetsRefusal(before, e, h) ==> Can(s, StoreFailed(h, fault)))
            && (MeetsFault(before, e, h) ==> Can(s, if w.retry < before.maxRetries then Publish(h, confirm) else StoreDeadLettered(h, fault)))
            && (MeetsBusy(before, e, h) ==> Can(s, Publish(h, confirm)))
            && (MeetsEnd(before, e, h) ==> Can(s, Finish(h)))
  {
    StepLeadsInRun(states, events, k, h);
    RunTakesStep(states, events, k);
    HandlerRests(states, events, k, i, h);
    IdsGrowInRun(states, events, k, i);
    OwnStepKeepsRetry(states[k], events[k], h);
  }

  /** A winner can try to commit any answer for its job, with the scope that the job row has. */
  lemma WinnersCanCommit(states: seq<System>, events: seq<Event>, k: nat, i: nat, h: nat, p: SolvePayload, solved: seq<Shift>, fault: Fault)
    requires Run(states, events) && k < i < |states| && Actor(events[k]) == Some(h) && Rests(events, k, i, h)
    requires AtWork(states[k], h) && WinsClaim(states[k], events[k], h)
    requires AtWork(states[i], h) && p.scope == RowOf(states[i], h).scope
    ensures Can(states[i], TryCommit(h, p, solved, fault))
  {
    StepLeadsInRun(states, events, k, h);
    HandlerRests(states, events, k, i, h);
  }

  lemma BeginningCanClaim(s: System, id: nat, worker: nat, token: Token, leaseLength: int, fault: Fault)
    requires id in s.messages && s.messages[id].place.Ready? && s.books.nextToken <= token && 0 < leaseLength
    ensures Can(s, Deliver(id, worker))
    ensures var t := Next(s, Deliver(id, worker));
            && Can(t, TryClaim(s.nextId, token, leaseLength, fault)) && Owns(t, s.nextId)
            && t.handlers[s.nextId].job == s.messages[id].job && t.handlers[s.nextId].retry == s.messages[id].retry
  {
  }
}
