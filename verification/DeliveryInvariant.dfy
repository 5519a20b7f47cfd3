/**
 What every step of delivery keeps, with no assumption on timing or
 subscriptions: sound books, tokens held by one handler each, retry counts
 within budget, completed keys that agree with the database, and dead letters
 only for finished jobs.
 */
module DeliveryInvariant {
  import opened Results
  import opened Shifts
  import opened Jobs
  import History = JobHistory
  import Guarantees = JobGuarantees
  import opened RetryQueues
  import opened Delivery

  function Held(phase: Phase): Option<Token> {
    match phase
    case Executing(token) => Some(token)
    case Condemned(held) => held
    case Faulted(held) => held
    case Replaced(held) => held
    case _ => None
  }

  ghost predicate MessageOk(s: System, id: nat)
    requires id in s.messages
  {
    var m := s.messages[id];
    && id < s.nextId
    && m.job in s.books.db.jobs
    && m.retry <= s.maxRetries
    && (m.place.Delayed? ==> m.place.queue == QueueIndex(m.retry))
    && (m.place.InFlight? ==> In(s, m.place.handler) && s.handlers[m.place.handler].message == id)
  }

  ghost predicate HandlerOk(s: System, h: nat)
    requires In(s, h)
  {
    var w := s.handlers[h];
    && h < s.nextId && w.message < s.nextId
    && w.job in s.books.db.jobs
    && w.retry <= s.maxRetries
    && (w.message in s.messages ==>
          && s.messages[w.message].job == w.job
          && s.messages[w.message].retry == w.retry)
    && (Held(w.phase).Some? ==> Held(w.phase).value < s.books.nextToken)
    && (w.phase.Rejecting? ==> Terminal(s.books.db.jobs[w.job].status))
    && (w.phase.Replaced? ==> w.retry < s.maxRetries)
  }

  ghost predicate CompletedOk(s: System) {
    forall key :: key in s.completed ==> key.1 in s.books.db.jobs && s.books.db.jobs[key.1].status.Succeeded?
  }

  ghost predicate HeldApart(s: System) {
    forall g, h :: In(s, g) && In(s, h) && g != h && Held(s.handlers[g].phase).Some? ==>
      Held(s.handlers[g].phase) != Held(s.handlers[h].phase)
  }

  /** Messages and handlers fit together. */
  ghost predicate Wired(s: System) {
    && (forall id :: id in s.messages ==> MessageOk(s, id))
    && (forall h :: In(s, h) ==> HandlerOk(s, h))
    && HeldApart(s)
    && CompletedOk(s)
  }

  ghost predicate SystemInv(s: System) {
    History.Inv(s.books) && Wired(s)
  }

  /** What any event leaves standing: jobs stay, finished ones stay as they are, counters only grow. */
  ghost predicate Grows(s: System, t: System) {
    && s.maxRetries == t.maxRetries && s.nextId <= t.nextId
    && s.books.nextToken <= t.books.nextToken
    && (forall j :: j in s.books.db.jobs ==> j in t.books.db.jobs)
    && (forall j :: j in s.books.db.jobs && Terminal(s.books.db.jobs[j].status) ==>
          t.books.db.jobs[j] == s.books.db.jobs[j])
  }

  lemma StepGrows(s: System, t: System, step: History.Step)
    requires History.Inv(s.books) && History.Enabled(s.books, step)
    requires t.books == History.Apply(s.books, step)
    requires s.maxRetries == t.maxRetries && s.nextId <= t.nextId
    ensures History.Inv(t.books) && Grows(s, t)
  {
    History.StepKeepsInv(s.books, step);
    forall j | j in s.books.db.jobs
      ensures j in t.books.db.jobs
      ensures Terminal(s.books.db.jobs[j].status) ==> t.books.db.jobs[j] == s.books.db.jobs[j]
    {
      History.JobsPersist(s.books, step, j);
      if Terminal(s.books.db.jobs[j].status) {
        Guarantees.StepKeepsTerminal(s.books, step, j);
      }
    }
    History.TokensOnlyGrow(s.books, step);
  }

  /** A rolled-back claim only uses up its token. */
  lemma TokenSpentGrows(s: System, t: System)
    requires History.Inv(s.books)
    requires t.books == s.books.(nextToken := t.books.nextToken) && s.books.nextToken <= t.books.nextToken
    requires s.maxRetries == t.maxRetries && s.nextId <= t.nextId
    ensures History.Inv(t.books) && Grows(s, t)
  {
    History.BooksAlone(s.books, t.books);
  }

  lemma MessageStays(s: System, t: System, id: nat)
    requires id in s.messages && MessageOk(s, id) && Grows(s, t)
    requires id in t.messages && t.messages[id] == s.messages[id]
    requires forall h :: In(s, h) ==> In(t, h) && t.handlers[h].message == s.handlers[h].message
    ensures MessageOk(t, id)
  {
  }

  lemma HandlerStays(s: System, t: System, h: nat)
    requires In(s, h) && HandlerOk(s, h) && Grows(s, t)
    requires In(t, h) && t.handlers[h] == s.handlers[h]
    requires var id := s.handlers[h].message;
             id in t.messages ==> id in s.messages && t.messages[id].job == s.messages[id].job && t.messages[id].retry == s.messages[id].retry
    ensures HandlerOk(t, h)
  {
  }

  /** A handler may move on while the books move, if what it now holds is its own. */
  lemma PhaseMoves(s: System, t: System, h: nat, phase: Phase)
    requires Wired(s) && In(s, h) && Grows(s, t)
    requires t.messages == s.messages && t.nextId == s.nextId
    requires t.handlers == s.handlers[h := s.handlers[h].(phase := phase)]
    requires || Held(phase).None?
             || Held(phase) == Held(s.handlers[h].phase)
             || s.books.nextToken <= Held(phase).value < t.books.nextToken
    requires phase.Rejecting? ==> s.handlers[h].job in t.books.db.jobs && Terminal(t.books.db.jobs[s.handlers[h].job].status)
    requires phase.Replaced? ==> s.handlers[h].retry < s.maxRetries
    requires CompletedOk(t)
    ensures Wired(t)
  {
    assert HandlerOk(s, h);
    forall id | id in t.messages ensures MessageOk(t, id) {
      MessageStays(s, t, id);
    }
    forall g | In(t, g) ensures HandlerOk(t, g) {
      assert HandlerOk(s, g);
      if g != h {
        HandlerStays(s, t, g);
      }
    }
    forall f, g | In(t, f) && In(t, g) && f != g && Held(t.handlers[f].phase).Some?
      ensures Held(t.handlers[f].phase) != Held(t.handlers[g].phase)
    {
      assert HandlerOk(s, f) && HandlerOk(s, g);
    }
  }

  lemma CompletedStays(s: System, t: System)
    requires CompletedOk(s) && Grows(s, t) && t.completed <= s.completed
    ensures CompletedOk(t)
  {
  }

  /** Only messages change; handlers that own one still do. */
  lemma MessagesMove(s: System, t: System)
    requires Wired(s) && Grows(s, t) && t.books == s.books
    requires t.handlers == s.handlers && t.completed == s.completed
    requires forall id :: id in t.messages ==> MessageOk(t, id)
    requires forall id :: id in t.messages && id < s.nextId ==>
               id in s.messages && t.messages[id].job == s.messages[id].job && t.messages[id].retry == s.messages[id].retry
    ensures Wired(t)
  {
    forall g | In(t, g) ensures HandlerOk(t, g) {
      assert HandlerOk(s, g);
    }
  }

  lemma AddingKeeps(s: System, m: Message)
    requires Wired(s) && m.job in s.books.db.jobs && m.retry <= s.maxRetries
    requires m.place.Ready? || m.place == Delayed(QueueIndex(m.retry))
    ensures Wired(AddMessage(s, m))
  {
    var t := AddMessage(s, m);
    forall id | id in t.messages ensures MessageOk(t, id) {
      if id != s.nextId {
        MessageStays(s, t, id);
      }
    }
    MessagesMove(s, t);
  }

  lemma TakingBackKeeps(s: System, h: nat)
    requires Wired(s) && In(s, h)
    ensures Wired(TakeBack(s, h)) && In(TakeBack(s, h), h) && !Owns(TakeBack(s, h), h)
  {
    var t := TakeBack(s, h);
    forall id | id in t.messages ensures MessageOk(t, id) {
      assert MessageOk(s, id);
    }
    MessagesMove(s, t);
  }

  lemma DroppingKeeps(s: System, h: nat)
    requires Wired(s) && In(s, h) && !Owns(s, h)
    ensures Wired(Drop(s, h))
  {
    var t := Drop(s, h);
    forall id | id in t.messages ensures MessageOk(t, id) {
      assert MessageOk(s, id);
    }
    forall g | In(t, g) ensures HandlerOk(t, g) {
      HandlerStays(s, t, g);
    }
  }

  lemma FinishingKeeps(s: System, h: nat)
    requires Wired(s) && In(s, h)
    ensures Wired(Finishes(s, h))
  {
    if s.handlers[h].phase.Requeueing? {
      TakingBackKeeps(s, h);
      DroppingKeeps(TakeBack(s, h), h);
    } else if Owns(s, h) {
      var t := s.(messages := s.messages - {s.handlers[h].message});
      forall id | id in t.messages ensures MessageOk(t, id) {
        assert MessageOk(s, id);
      }
      MessagesMove(s, t);
      DroppingKeeps(t, h);
    } else {
      DroppingKeeps(s, h);
    }
  }

  lemma HandingKeeps(s: System, id: nat, worker: nat)
    requires Wired(s) && id in s.messages && s.messages[id].place.Ready?
    ensures Wired(Hand(s, id, worker))
  {
    var t := Hand(s, id, worker);
    assert MessageOk(s, id);
    forall m | m in t.messages ensures MessageOk(t, m) {
      assert MessageOk(s, m);
    }
    forall g | In(t, g) ensures HandlerOk(t, g) {
      if g != s.nextId {
        HandlerStays(s, t, g);
      }
    }
  }

  /** The books may move under resting messages and handlers. */
  lemma BooksMove(s: System, t: System)
    requires Wired(s) && Grows(s, t)
    requires t.messages == s.messages && t.handlers == s.handlers && t.completed <= s.completed
    ensures Wired(t)
  {
    forall id | id in t.messages ensures MessageOk(t, id) {
      MessageStays(s, t, id);
    }
    forall g | In(t, g) ensures HandlerOk(t, g) {
      HandlerStays(s, t, g);
    }
    CompletedStays(s, t);
  }

  lemma HappeningKeeps(s: System, step: History.Step)
    requires Wired(s) && History.Enabled(s.books, step)
    requires Grows(s, s.(books := History.Apply(s.books, step)))
    requires step.Enqueue? ==> step.job in History.Apply(s.books, step).db.jobs
    ensures Wired(Happens(s, step))
  {
    var t := s.(books := History.Apply(s.books, step));
    BooksMove(s, t);
    if step.Enqueue? {
      AddingKeeps(t, Message(step.job, 0, Ready));
    }
  }

  lemma ClaimingKeeps(s: System, h: nat, token: Token, leaseLength: int, fault: Fault)
    requires Wired(s) && Can(s, TryClaim(h, token, leaseLength, fault))
    requires Grows(s, Claims(s, h, token, leaseLength, fault))
    ensures Wired(Claims(s, h, token, leaseLength, fault))
  {
    assert HandlerOk(s, h);
    var t := Claims(s, h, token, leaseLength, fault);
    CompletedStays(s, t);
    PhaseMoves(s, t, h, t.handlers[h].phase);
  }

  /** The event moves one handler on, with a phase that its token and retry count allow. */
  ghost predicate MovesOn(s: System, t: System, h: nat)
    requires In(s, h)
  {
    && In(t, h)
    && t.messages == s.messages && t.nextId == s.nextId
    && t.handlers == s.handlers[h := s.handlers[h].(phase := t.handlers[h].phase)]
    && (Held(t.handlers[h].phase).None? || Held(t.handlers[h].phase) == Held(s.handlers[h].phase))
    && !t.handlers[h].phase.Rejecting? && !t.handlers[h].phase.Replaced?
  }

  lemma CommitMovesOn(s: System, h: nat, payload: SolvePayload, solved: seq<Shift>, fault: Fault)
    requires Can(s, TryCommit(h, payload, solved, fault))
    ensures MovesOn(s, Commits(s, h, payload, solved, fault), h)
  {
  }

  lemma MovingOnKeeps(s: System, t: System, h: nat)
    requires Wired(s) && In(s, h) && Grows(s, t) && MovesOn(s, t, h) && CompletedOk(t)
    ensures Wired(t)
  {
    PhaseMoves(s, t, h, t.handlers[h].phase);
  }

  lemma CommittingKeeps(s: System, h: nat, payload: SolvePayload, solved: seq<Shift>, fault: Fault)
    requires Wired(s) && Can(s, TryCommit(h, payload, solved, fault))
    requires Grows(s, Commits(s, h, payload, solved, fault))
    ensures Wired(Commits(s, h, payload, solved, fault))
  {
    CommitMovesOn(s, h, payload, solved, fault);
    CommitRemembersSuccess(s, h, payload, solved, fault);
    MovingOnKeeps(s, Commits(s, h, payload, solved, fault), h);
  }

  /** A commit adds its key to the cache only when the job row says SUCCEEDED. */
  lemma CommitRemembersSuccess(s: System, h: nat, payload: SolvePayload, solved: seq<Shift>, fault: Fault)
    requires CompletedOk(s) && Can(s, TryCommit(h, payload, solved, fault))
    requires Grows(s, Commits(s, h, payload, solved, fault))
    ensures CompletedOk(Commits(s, h, payload, solved, fault))
  {
    var t := Commits(s, h, payload, solved, fault);
    if t.completed != s.completed {
      assert t.books.db.jobs[s.handlers[h].job].status.Succeeded?;
    }
  }

  /** A refunding step that reports success leaves the job terminal. */
  lemma RefundDoneIsTerminal(s: System, h: nat, status: Status, retry: nat, held: Option<Token>)
    requires In(s, h) && s.handlers[h].job in s.books.db.jobs && Refunding(status)
    requires RefundOf(s, h, status, retry, held).1.Done?
    ensures var db := RefundOf(s, h, status, retry, held).0;
            s.handlers[h].job in db.jobs && Terminal(db.jobs[s.handlers[h].job].status)
  {
  }

  lemma FailingRejectsFinished(s: System, h: nat, fault: Fault)
    requires HandlerOkIn(s, h) && Can(s, StoreFailed(h, fault))
    ensures var t := Fails(s, h, fault);
            && t.handlers == s.handlers[h := s.handlers[h].(phase := t.handlers[h].phase)]
            && Held(t.handlers[h].phase).None? && !t.handlers[h].phase.Replaced?
            && (t.handlers[h].phase.Rejecting? ==> Finished(t, s.handlers[h].job))
  {
    var w := s.handlers[h];
    if RefundOf(s, h, Failed, w.retry, w.phase.held).1.Done? {
      RefundDoneIsTerminal(s, h, Failed, w.retry, w.phase.held);
    }
  }

  predicate HandlerOkIn(s: System, h: nat) { In(s, h) && s.handlers[h].job in s.books.db.jobs }

  predicate Finished(s: System, job: string) { job in s.books.db.jobs && Terminal(s.books.db.jobs[job].status) }

  lemma FailingKeeps(s: System, h: nat, fault: Fault)
    requires Wired(s) && Can(s, StoreFailed(h, fault)) && Grows(s, Fails(s, h, fault))
    ensures Wired(Fails(s, h, fault))
  {
    assert HandlerOk(s, h);
    var t := Fails(s, h, fault);
    FailingRejectsFinished(s, h, fault);
    CompletedStays(s, t);
    PhaseMoves(s, t, h, t.handlers[h].phase);
  }

  lemma DeadLetteringRejectsFinished(s: System, h: nat, fault: Fault)
    requires HandlerOkIn(s, h) && Can(s, StoreDeadLettered(h, fault))
    ensures var t := DeadLetters(s, h, fault);
            && t.handlers == s.handlers[h := s.handlers[h].(phase := t.handlers[h].phase)]
            && Held(t.handlers[h].phase).None? && !t.handlers[h].phase.Replaced?
            && (t.handlers[h].phase.Rejecting? ==> Finished(t, s.handlers[h].job))
  {
    var w := s.handlers[h];
    if RefundOf(s, h, DeadLettered, s.maxRetries, w.phase.held).1.Done? {
      RefundDoneIsTerminal(s, h, DeadLettered, s.maxRetries, w.phase.held);
    }
  }

  lemma DeadLetteringKeeps(s: System, h: nat, fault: Fault)
    requires Wired(s) && Can(s, StoreDeadLettered(h, fault)) && Grows(s, DeadLetters(s, h, fault))
    ensures Wired(DeadLetters(s, h, fault))
  {
    assert HandlerOk(s, h);
    var t := DeadLetters(s, h, fault);
    DeadLetteringRejectsFinished(s, h, fault);
    CompletedStays(s, t);
    PhaseMoves(s, t, h, t.handlers[h].phase);
  }

  lemma MarkingKeeps(s: System, h: nat, fault: Fault)
    requires Wired(s) && Can(s, StoreRetrying(h, fault)) && Grows(s, Marks(s, h, fault))
    ensures Wired(Marks(s, h, fault))
  {
    assert HandlerOk(s, h);
    CompletedStays(s, Marks(s, h, fault));
    PhaseMoves(s, Marks(s, h, fault), h, Acking);
  }

  lemma PublishingKeeps(s: System, h: nat, confirm: Confirm)
    requires Wired(s) && Can(s, Publish(h, confirm))
    ensures Wired(Publishes(s, h, confirm))
  {
    assert HandlerOk(s, h);
    var t := if confirm.Lost? then s else AddMessage(s, Copy(s.handlers[h]));
    if !confirm.Lost? {
      AddingKeeps(s, Copy(s.handlers[h]));
    }
    PhaseMoves(t, Publishes(s, h, confirm), h, Publishes(s, h, confirm).handlers[h].phase);
  }

  // ---- the books behind each event ----

  lemma ClaimGrows(s: System, h: nat, token: Token, leaseLength: int, fault: Fault)
    requires History.Inv(s.books) && In(s, h) && s.handlers[h].job in s.books.db.jobs
    requires s.books.nextToken <= token && 0 < leaseLength
    ensures var t := Claims(s, h, token, leaseLength, fault); History.Inv(t.books) && Grows(s, t)
  {
    var t := Claims(s, h, token, leaseLength, fault);
    if fault.RolledBack? {
      TokenSpentGrows(s, t);
    } else {
      StepGrows(s, t, History.ClaimStep(JobScope(s, h), s.handlers[h].job, s.handlers[h].retry, token, leaseLength));
    }
  }

  lemma CommitGrows(s: System, h: nat, payload: SolvePayload, solved: seq<Shift>, fault: Fault)
    requires History.Inv(s.books) && In(s, h) && s.handlers[h].phase.Executing?
    ensures var t := Commits(s, h, payload, solved, fault); History.Inv(t.books) && Grows(s, t)
  {
    var w := s.handlers[h];
    if !fault.RolledBack? {
      StepGrows(s, Commits(s, h, payload, solved, fault), History.CommitStep(payload, solved, w.job, w.retry, Some(w.phase.token)));
    }
  }

  lemma RefundGrows(s: System, t: System, h: nat, status: Status, retry: nat, held: Option<Token>)
    requires History.Inv(s.books) && In(s, h) && s.handlers[h].job in s.books.db.jobs && Refunding(status)
    requires t.books == s.books.(db := RefundOf(s, h, status, retry, held).0)
    requires t.maxRetries == s.maxRetries && t.nextId == s.nextId
    ensures History.Inv(t.books) && Grows(s, t)
  {
    StepGrows(s, t, History.TerminalizeStep(JobScope(s, h), s.handlers[h].job, status, retry, held));
  }

  lemma FailureGrows(s: System, h: nat, fault: Fault)
    requires History.Inv(s.books) && In(s, h) && s.handlers[h].phase.Condemned? && s.handlers[h].job in s.books.db.jobs
    ensures var t := Fails(s, h, fault); History.Inv(t.books) && Grows(s, t)
  {
    if !fault.RolledBack? {
      RefundGrows(s, Fails(s, h, fault), h, Failed, s.handlers[h].retry, s.handlers[h].phase.held);
    }
  }

  lemma DeadLetterGrows(s: System, h: nat, fault: Fault)
    requires History.Inv(s.books) && In(s, h) && s.handlers[h].phase.Faulted? && s.handlers[h].job in s.books.db.jobs
    ensures var t := DeadLetters(s, h, fault); History.Inv(t.books) && Grows(s, t)
  {
    if !fault.RolledBack? {
      RefundGrows(s, DeadLetters(s, h, fault), h, DeadLettered, s.maxRetries, s.handlers[h].phase.held);
    }
  }

  lemma MarkGrows(s: System, h: nat, fault: Fault)
    requires History.Inv(s.books) && In(s, h) && s.handlers[h].phase.Replaced? && s.handlers[h].job in s.books.db.jobs
    ensures var t := Marks(s, h, fault); History.Inv(t.books) && Grows(s, t)
  {
    if !fault.RolledBack? {
      MarkIsAStep(s, h, fault);
      StepGrows(s, Marks(s, h, fault), MarkStep(s, h));
    }
  }

  function MarkStep(s: System, h: nat): History.Step
    requires In(s, h) && s.handlers[h].phase.Replaced? && s.handlers[h].job in s.books.db.jobs
  {
    History.RetryStep(JobScope(s, h), s.handlers[h].job, s.handlers[h].retry + 1, s.handlers[h].phase.held)
  }

  lemma MarkIsAStep(s: System, h: nat, fault: Fault)
    requires In(s, h) && s.handlers[h].phase.Replaced? && s.handlers[h].job in s.books.db.jobs && !fault.RolledBack?
    ensures History.Enabled(s.books, MarkStep(s, h))
    ensures var t := Marks(s, h, fault);
            t.books == History.Apply(s.books, MarkStep(s, h)) && t.maxRetries == s.maxRetries && t.nextId == s.nextId
  {
  }

  lemma HappeningGrows(s: System, step: History.Step)
    requires History.Inv(s.books) && History.Enabled(s.books, step)
    ensures var t := s.(books := History.Apply(s.books, step)); History.Inv(t.books) && Grows(s, t)
    ensures var t := Happens(s, step); History.Inv(t.books) && Grows(s, t)
  {
    StepGrows(s, s.(books := History.Apply(s.books, step)), step);
  }

  /** The handler whose job transaction the event is, if it is one. */
  function Transacting(e: Event): Option<nat> {
    match e
    case TryClaim(h, _, _, _) => Some(h)
    case TryCommit(h, _, _, _) => Some(h)
    case StoreFailed(h, _) => Some(h)
    case StoreDeadLettered(h, _) => Some(h)
    case StoreRetrying(h, _) => Some(h)
    case _ => None
  }

  lemma ClaimOrCommitGrows(s: System, e: Event)
    requires History.Inv(s.books) && Can(s, e) && (e.TryClaim? || e.TryCommit?)
    requires s.handlers[e.handler].job in s.books.db.jobs
    ensures History.Inv(Next(s, e).books) && Grows(s, Next(s, e))
  {
    match e {
      case TryClaim(h, token, leaseLength, fault) => ClaimGrows(s, h, token, leaseLength, fault);
      case TryCommit(h, payload, solved, fault) => CommitGrows(s, h, payload, solved, fault);
    }
  }

  lemma RefundingGrows(s: System, e: Event)
    requires History.Inv(s.books) && Can(s, e) && (e.StoreFailed? || e.StoreDeadLettered?)
    requires s.handlers[e.handler].job in s.books.db.jobs
    ensures History.Inv(Next(s, e).books) && Grows(s, Next(s, e))
  {
    match e {
      case StoreFailed(h, fault) => FailureGrows(s, h, fault);
      case StoreDeadLettered(h, fault) => DeadLetterGrows(s, h, fault);
    }
  }

  lemma MarkingGrows(s: System, e: Event)
    requires History.Inv(s.books) && Can(s, e) && e.StoreRetrying?
    requires s.handlers[e.handler].job in s.books.db.jobs
    ensures History.Inv(Next(s, e).books) && Grows(s, Next(s, e))
  {
    MarkGrows(s, e.handler, e.fault);
  }

  lemma QuietGrows(s: System, e: Event)
    requires Can(s, e) && Transacting(e).None? && !e.Outside?
    ensures Next(s, e).books == s.books && Grows(s, Next(s, e))
  {
  }

  lemma HandledJobExists(s: System, e: Event)
    requires Wired(s) && Can(s, e) && Transacting(e).Some?
    ensures In(s, Transacting(e).value) && s.handlers[Transacting(e).value].job in s.books.db.jobs
  {
    assert HandlerOk(s, Transacting(e).value);
  }

  lemma EventGrows(s: System, e: Event)
    requires SystemInv(s) && Can(s, e)
    ensures History.Inv(Next(s, e).books) && Grows(s, Next(s, e))
    ensures e.Outside? ==> Grows(s, s.(books := History.Apply(s.books, e.step)))
  {
    if Transacting(e).Some? {
      HandledJobExists(s, e);
      if e.TryClaim? || e.TryCommit? {
        ClaimOrCommitGrows(s, e);
      } else if e.StoreRetrying? {
        MarkingGrows(s, e);
      } else {
        RefundingGrows(s, e);
      }
    } else if e.Outside? {
      HappeningGrows(s, e.step);
    } else {
      QuietGrows(s, e);
    }
  }

  /** Every event keeps the invariant, whatever the clock, the broker and the subscriptions do. */
  lemma NextKeepsInv(s: System, e: Event)
    requires SystemInv(s) && Can(s, e)
    ensures SystemInv(Next(s, e))
  {
    EventGrows(s, e);
    NextKeepsWiring(s, e);
  }

  lemma ClaimOrCommitKeepsWiring(s: System, e: Event)
    requires Wired(s) && Can(s, e) && Grows(s, Next(s, e)) && (e.TryClaim? || e.TryCommit?)
    ensures Wired(Next(s, e))
  {
    match e {
      case TryClaim(h, token, leaseLength, fault) => ClaimingKeeps(s, h, token, leaseLength, fault);
      case TryCommit(h, payload, solved, fault) => CommittingKeeps(s, h, payload, solved, fault);
    }
  }

  lemma EndingKeepsWiring(s: System, e: Event)
    requires Wired(s) && Can(s, e) && Grows(s, Next(s, e)) && (e.StoreFailed? || e.StoreDeadLettered? || e.StoreRetrying?)
    ensures Wired(Next(s, e))
  {
    match e {
      case StoreFailed(h, fault) => FailingKeeps(s, h, fault);
      case StoreDeadLettered(h, fault) => DeadLetteringKeeps(s, h, fault);
      case StoreRetrying(h, fault) => MarkingKeeps(s, h, fault);
    }
  }

  lemma WorkKeepsWiring(s: System, e: Event)
    requires Wired(s) && Can(s, e) && Grows(s, Next(s, e))
    requires e.SkipCompleted? || e.EngineFails? || e.EngineRejects? || e.Publish?
    ensures Wired(Next(s, e))
  {
    match e {
      case SkipCompleted(h) => PhaseMoves(s, Move(s, h, Acking), h, Acking);
      case EngineFails(h) => PhaseMoves(s, Next(s, e), h, Next(s, e).handlers[h].phase);
      case EngineRejects(h) => PhaseMoves(s, Next(s, e), h, Next(s, e).handlers[h].phase);
      case Publish(h, confirm) => PublishingKeeps(s, h, confirm);
    }
  }

  lemma SettlingKeepsWiring(s: System, e: Event)
    requires Wired(s) && Can(s, e) && (e.Deliver? || e.Finish? || e.Crash? || e.Disconnect?)
    ensures Wired(Next(s, e))
  {
    match e {
      case Deliver(id, worker) => HandingKeeps(s, id, worker);
      case Finish(h) => FinishingKeeps(s, h);
      case Crash(h) =>
        TakingBackKeeps(s, h);
        DroppingKeeps(TakeBack(s, h), h);
      case Disconnect(h) => TakingBackKeeps(s, h);
    }
  }

  lemma NextKeepsWiring(s: System, e: Event)
    requires Wired(s) && Can(s, e) && Grows(s, Next(s, e))
    requires e.Outside? ==> Grows(s, s.(books := History.Apply(s.books, e.step)))
    ensures Wired(Next(s, e))
  {
    if e.TryClaim? || e.TryCommit? {
      ClaimOrCommitKeepsWiring(s, e);
    } else if e.StoreFailed? || e.StoreDeadLettered? || e.StoreRetrying? {
      EndingKeepsWiring(s, e);
    } else if e.SkipCompleted? || e.EngineFails? || e.EngineRejects? || e.Publish? {
      WorkKeepsWiring(s, e);
    } else if e.Deliver? || e.Finish? || e.Crash? || e.Disconnect? {
      SettlingKeepsWiring(s, e);
    } else {
      match e {
        case Forget(worker, job) => BooksMove(s, Next(s, e));
        case DelayOver(message) => DelayEndingKeeps(s, message);
        case Republish(job) => AddingKeeps(s, Message(job, 0, Ready));
        case Outside(step) => HappeningKeeps(s, step);
      }
    }
  }

  lemma DelayEndingKeeps(s: System, id: nat)
    requires Wired(s) && id in s.messages && s.messages[id].place.Delayed?
    ensures Wired(s.(messages := s.messages[id := s.messages[id].(place := Ready)]))
  {
    var t := s.(messages := s.messages[id := s.messages[id].(place := Ready)]);
    forall m | m in t.messages ensures MessageOk(t, m) {
      assert MessageOk(s, m);
    }
    MessagesMove(s, t);
  }
}
