/**
 When a job can be left without a message: exactly when a handler gives it up, which it
 does when its claim was taken away, or when a live lease keeps it from storing the failure
 of a refused claim. Nothing else strands a job: no crash, lost publish or failed mark.
 */
module NoStranding {
  import opened Results
  import opened Shifts
  import opened Jobs
  import History = JobHistory
  import opened RetryQueues
  import opened Delivery
  import opened DeliveryInvariant

  function TokenOf(s: System, job: string): Option<Token>
    requires job in s.books.db.jobs
  {
    s.books.db.jobs[job].token
  }

  predicate Unfinished(s: System, job: string) {
    job in s.books.db.jobs && !Terminal(s.books.db.jobs[job].status)
  }

  // ---- the exits that give a job up ----

  /** The commit's guards pass up to the token, which is no longer the handler's. */
  predicate CommitGivesUp(s: System, h: nat, payload: SolvePayload)
    requires In(s, h) && s.handlers[h].phase.Executing?
  {
    var w := s.handlers[h];
    DraftUnchanged(s.books.db, payload) && Unfinished(s, w.job) && TokenOf(s, w.job) != Some(w.phase.token)
  }

  /** FAILED is to be stored for a job that the handler may not change. */
  predicate FailureGivesUp(s: System, h: nat)
    requires In(s, h) && s.handlers[h].phase.Condemned?
  {
    var w := s.handlers[h];
    Unfinished(s, w.job) && !MayMutate(s.books.db.jobs[w.job], w.phase.held, s.books.db.now)
  }

  ghost predicate GivesUp(s: System, e: Event, h: nat)
    requires Can(s, e)
  {
    match e
    case TryCommit(g, payload, _, fault) => g == h && fault.Clean? && CommitGivesUp(s, h, payload)
    case StoreFailed(g, fault) => g == h && fault.Clean? && FailureGivesUp(s, h)
    case _ => false
  }

  /** The handler is about to acknowledge a message whose job is not finished. */
  predicate Leaving(s: System, h: nat) {
    In(s, h) && s.handlers[h].phase.Acking? && Unfinished(s, s.handlers[h].job)
  }

  /** A clean commit attempt ends in leaving exactly when it finds the token replaced. */
  lemma CommitLeavesExactly(s: System, h: nat, payload: SolvePayload, solved: seq<Shift>)
    requires History.Inv(s.books) && Can(s, TryCommit(h, payload, solved, Clean))
    ensures Leaving(Commits(s, h, payload, solved, Clean), h) <==> CommitGivesUp(s, h, payload)
  {
    assert History.RowOk(s.books, s.handlers[h].job);
  }

  /** A clean attempt to store FAILED ends in leaving exactly when the handler may not change the job. */
  lemma FailureLeavesExactly(s: System, h: nat)
    requires History.Inv(s.books) && Wired(s) && Can(s, StoreFailed(h, Clean))
    ensures Leaving(Fails(s, h, Clean), h) <==> FailureGivesUp(s, h)
  {
    assert HandlerOk(s, h);
    assert History.RowOk(s.books, s.handlers[h].job);
  }

  /** The handler whose own step the event is. */
  function Actor(e: Event): Option<nat> {
    match e
    case TryClaim(h, _, _, _) => Some(h)
    case SkipCompleted(h) => Some(h)
    case EngineFails(h) => Some(h)
    case EngineRejects(h) => Some(h)
    case TryCommit(h, _, _, _) => Some(h)
    case StoreFailed(h, _) => Some(h)
    case StoreDeadLettered(h, _) => Some(h)
    case Publish(h, _) => Some(h)
    case StoreRetrying(h, _) => Some(h)
    case _ => None
  }

  /** The step follows a replacement that the broker confirmed. */
  predicate LeavesCopy(s: System, e: Event, h: nat)
    requires In(s, h)
  {
    (e == Publish(h, Confirmed) && s.handlers[h].phase.Delaying?) || (e.StoreRetrying? && e.handler == h)
  }

  lemma OthersStay(s: System, e: Event, h: nat)
    requires Can(s, e) && Actor(e) != Some(h) && In(Next(s, e), h)
    ensures (In(s, h) && Next(s, e).handlers[h] == s.handlers[h]) || (h == s.nextId && Next(s, e).handlers[h].phase.Received?)
  {
  }

  /** The duplicate exit is harmless: a remembered key means the job already succeeded. */
  lemma RememberedIsFinished(s: System, h: nat)
    requires Wired(s) && Can(s, SkipCompleted(h))
    ensures !Unfinished(s, s.handlers[h].job)
  {
    assert (s.handlers[h].worker, s.handlers[h].job).1 == s.handlers[h].job;
  }

  lemma ClaimNeverLeaves(s: System, h: nat, token: Token, leaseLength: int, fault: Fault)
    requires In(s, h) && s.handlers[h].job in s.books.db.jobs && s.handlers[h].phase.Received?
    ensures !Leaving(Claims(s, h, token, leaseLength, fault), h)
  {
  }

  lemma OtherOwnStepsLeave(s: System, e: Event, h: nat)
    requires Can(s, e) && Actor(e) == Some(h) && In(s, h) && HandlerOk(s, h)
    requires !e.TryClaim? && !e.SkipCompleted? && !e.TryCommit? && !e.StoreFailed?
    requires Unfinished(Next(s, e), s.handlers[h].job) ==> Unfinished(s, s.handlers[h].job)
    ensures Leaving(Next(s, e), h) ==> LeavesCopy(s, e, h) && Unfinished(s, s.handlers[h].job)
  {
  }

  /** A handler comes to leave an unfinished job only by giving it up, or once a copy was confirmed. */
  lemma LeavesOnlyBy(s: System, e: Event, h: nat)
    requires SystemInv(s) && Can(s, e) && !Leaving(s, h) && Leaving(Next(s, e), h)
    ensures In(s, h) && Actor(e) == Some(h) && Unfinished(s, s.handlers[h].job) && (GivesUp(s, e, h) || LeavesCopy(s, e, h))
  {
    EventGrows(s, e);
    assert In(s, h) ==> HandlerOk(s, h);
    if Actor(e) == Some(h) {
      OwnStepLeaves(s, e, h);
    } else {
      OthersStay(s, e, h);
    }
  }

  lemma OwnStepLeaves(s: System, e: Event, h: nat)
    requires SystemInv(s) && Can(s, e) && Actor(e) == Some(h) && In(s, h) && HandlerOk(s, h)
    requires Grows(s, Next(s, e)) && Leaving(Next(s, e), h)
    ensures Unfinished(s, s.handlers[h].job) && (GivesUp(s, e, h) || LeavesCopy(s, e, h))
  {
    match e {
      case TryClaim(_, token, leaseLength, fault) => ClaimNeverLeaves(s, h, token, leaseLength, fault);
      case SkipCompleted(_) => RememberedIsFinished(s, h);
      case TryCommit(_, payload, solved, fault) => CommitLeavesOnlyBy(s, h, payload, solved, fault);
      case StoreFailed(_, fault) => FailureLeavesOnlyBy(s, h, fault);
      case _ => OtherOwnStepsLeave(s, e, h);
    }
  }

  lemma CommitLeavesOnlyBy(s: System, h: nat, payload: SolvePayload, solved: seq<Shift>, fault: Fault)
    requires History.Inv(s.books) && Can(s, TryCommit(h, payload, solved, fault))
    requires Leaving(Commits(s, h, payload, solved, fault), h)
    ensures Unfinished(s, s.handlers[h].job) && GivesUp(s, TryCommit(h, payload, solved, fault), h)
  {
    if fault.Clean? {
      CommitLeavesExactly(s, h, payload, solved);
    }
  }

  lemma FailureLeavesOnlyBy(s: System, h: nat, fault: Fault)
    requires History.Inv(s.books) && Wired(s) && Can(s, StoreFailed(h, fault)) && HandlerOk(s, h)
    requires Leaving(Fails(s, h, fault), h)
    ensures Unfinished(s, s.handlers[h].job) && GivesUp(s, StoreFailed(h, fault), h)
  {
    if fault.Clean? {
      FailureLeavesExactly(s, h);
    }
  }

  /** The handler gives up, or goes on after a copy was confirmed. */
  ghost predicate Reason(s: System, e: Event, h: nat) {
    Can(s, e) && In(s, h) && (GivesUp(s, e, h) || e == Publish(h, Confirmed))
  }

  /** On the way to acknowledging without having finished the job. */
  predicate OnTheWayOut(s: System, h: nat) { In(s, h) && (s.handlers[h].phase.Acking? || s.handlers[h].phase.Replaced?) }

  lemma ReplacedByPublish(s: System, e: Event, h: nat)
    requires Can(s, e) && Actor(e) == Some(h) && Next(s, e).handlers[h].phase.Replaced?
    ensures e == Publish(h, Confirmed)
  {
  }

  lemma OwnNewlyOut(s: System, e: Event, h: nat)
    requires SystemInv(s) && Can(s, e) && Actor(e) == Some(h) && In(s, h) && HandlerOk(s, h) && Grows(s, Next(s, e))
    requires OnTheWayOut(Next(s, e), h) && Unfinished(Next(s, e), Next(s, e).handlers[h].job)
    ensures OnTheWayOut(s, h) || Reason(s, e, h)
  {
    if Next(s, e).handlers[h].phase.Replaced? {
      ReplacedByPublish(s, e, h);
    } else {
      OwnStepLeaves(s, e, h);
    }
  }

  lemma NewlyOut(s: System, e: Event, h: nat)
    requires SystemInv(s) && Can(s, e) && OnTheWayOut(Next(s, e), h) && Unfinished(Next(s, e), Next(s, e).handlers[h].job)
    ensures In(s, h) && Next(s, e).handlers[h].job == s.handlers[h].job && Unfinished(s, s.handlers[h].job)
    ensures OnTheWayOut(s, h) || Reason(s, e, h)
  {
    EventGrows(s, e);
    JobStays(s, e, h);
    assert HandlerOk(s, h);
    if Actor(e) == Some(h) {
      OwnNewlyOut(s, e, h);
    } else {
      OthersStay(s, e, h);
    }
  }

  lemma JobStays(s: System, e: Event, h: nat)
    requires Can(s, e) && OnTheWayOut(Next(s, e), h)
    ensures In(s, h) && Next(s, e).handlers[h].job == s.handlers[h].job
  {
    if Actor(e) != Some(h) {
      OthersStay(s, e, h);
    }
  }

  // ---- when a message disappears ----

  /** A message disappears exactly when the handler that owns it finishes other than by requeueing it. */
  lemma MessageVanishesExactly(s: System, e: Event, id: nat)
    requires Wired(s) && Can(s, e) && id in s.messages
    ensures id !in Next(s, e).messages <==>
              e.Finish? && s.handlers[e.handler].message == id && Owns(s, e.handler) && !s.handlers[e.handler].phase.Requeueing?
  {
    assert MessageOk(s, id);
  }

  // ---- every other message goes on ----

  /** A handler in this phase has not settled, replaced or finished anything yet. */
  predicate Carries(phase: Phase) { !phase.Acking? && !phase.Rejecting? && !phase.Replaced? }

  ghost predicate Carried(s: System, id: nat, job: string) {
    && id in s.messages && s.messages[id].job == job
    && (s.messages[id].place.InFlight? ==>
          In(s, s.messages[id].place.handler) && Carries(s.handlers[s.messages[id].place.handler].phase))
  }

  ghost predicate HasCarrier(s: System, job: string) { exists id :: Carried(s, id, job) }

  lemma PhaseKeepsCarrier(s: System, t: System, h: nat, phase: Phase, job: string)
    requires Wired(s) && In(s, h) && HasCarrier(s, job)
    requires t.messages == s.messages && t.handlers == s.handlers[h := s.handlers[h].(phase := phase)]
    requires s.handlers[h].job == job && Carries(s.handlers[h].phase) ==> Carries(phase)
    ensures HasCarrier(t, job)
  {
    var id :| Carried(s, id, job);
    assert MessageOk(s, id);
    assert HandlerOk(s, h);
    assert Carried(t, id, job);
  }

  lemma PublishKeepsCarrier(s: System, h: nat, confirm: Confirm, job: string)
    requires Wired(s) && Can(s, Publish(h, confirm)) && HasCarrier(s, job)
    ensures HasCarrier(Publishes(s, h, confirm), job)
  {
    var t := Publishes(s, h, confirm);
    assert HandlerOk(s, h);
    if confirm.Lost? {
      PhaseKeepsCarrier(s, t, h, Requeueing, job);
    } else if job == s.handlers[h].job {
      assert Carried(t, s.nextId, job);
    } else {
      var id :| Carried(s, id, job);
      assert MessageOk(s, id);
      assert Carried(t, id, job);
    }
  }

  /** Events that move no handler's phase but may take handlers or settled messages away. */
  lemma QuietEventKeepsCarrier(s: System, e: Event, job: string)
    requires Wired(s) && Can(s, e) && HasCarrier(s, job)
    requires Actor(e).None? && !e.Outside?
    ensures HasCarrier(Next(s, e), job)
  {
    var id :| Carried(s, id, job);
    assert MessageOk(s, id);
    assert Carried(Next(s, e), id, job);
  }

  lemma OutsideKeepsCarrier(s: System, e: Event, job: string)
    requires Wired(s) && Can(s, e) && e.Outside? && (HasCarrier(s, job) || (e.step.Enqueue? && e.step.job == job))
    ensures HasCarrier(Next(s, e), job)
  {
    if HasCarrier(s, job) {
      var id :| Carried(s, id, job);
      assert MessageOk(s, id);
      assert Carried(Next(s, e), id, job);
    } else {
      assert Carried(Next(s, e), s.nextId, job);
    }
  }

  /** An own step without a publish ends in a phase that carries on, unless the job is given up, copied or finished. */
  lemma OwnStepCarries(s: System, e: Event, h: nat)
    requires SystemInv(s) && Can(s, e) && Actor(e) == Some(h) && !e.Publish? && Grows(s, Next(s, e))
    requires In(s, h) && Carries(s.handlers[h].phase) && Unfinished(Next(s, e), s.handlers[h].job) && !GivesUp(s, e, h)
    ensures In(Next(s, e), h) && Carries(Next(s, e).handlers[h].phase)
  {
    assert HandlerOk(s, h);
    OwnStepShape(s, e, h);
    if OnTheWayOut(Next(s, e), h) {
      OwnNewlyOut(s, e, h);
    } else if Next(s, e).handlers[h].phase.Rejecting? {
      RejectingIsFinished(s, e, h);
    }
  }

  lemma RejectingIsFinished(s: System, e: Event, h: nat)
    requires SystemInv(s) && Can(s, e) && In(Next(s, e), h) && Next(s, e).handlers[h].phase.Rejecting?
    ensures !Unfinished(Next(s, e), Next(s, e).handlers[h].job)
  {
    NextKeepsInv(s, e);
    assert HandlerOk(Next(s, e), h);
  }

  lemma OwnStepShape(s: System, e: Event, h: nat)
    requires Can(s, e) && Actor(e) == Some(h) && !e.Publish?
    ensures In(s, h) && In(Next(s, e), h) && Next(s, e).messages == s.messages
    ensures Next(s, e).handlers == s.handlers[h := s.handlers[h].(phase := Next(s, e).handlers[h].phase)]
  {
  }

  /** Any event leaves an unfinished job a carried message, except where a handler gives that job up. */
  lemma NextKeepsCarrier(s: System, e: Event, job: string)
    requires SystemInv(s) && Can(s, e) && Unfinished(Next(s, e), job)
    requires HasCarrier(s, job) || (e.Outside? && e.step.Enqueue? && e.step.job == job)
    requires forall h :: GivesUp(s, e, h) ==> s.handlers[h].job != job
    ensures HasCarrier(Next(s, e), job)
  {
    if e.Outside? {
      OutsideKeepsCarrier(s, e, job);
    } else if e.Publish? {
      PublishKeepsCarrier(s, e.handler, e.confirm, job);
    } else if Actor(e).None? {
      QuietEventKeepsCarrier(s, e, job);
    } else {
      var h := Actor(e).value;
      OwnStepShape(s, e, h);
      if s.handlers[h].job == job && Carries(s.handlers[h].phase) {
        EventGrows(s, e);
        OwnStepCarries(s, e, h);
      }
      PhaseKeepsCarrier(s, Next(s, e), h, Next(s, e).handlers[h].phase, job);
    }
  }

  // ---- whole runs ----

  ghost predicate Start(s: System) {
    && History.Init(s.books)
    && s.handlers == map[] && s.completed == {}
    && (forall id :: id in s.messages ==>
          && id < s.nextId && s.messages[id].job in s.books.db.jobs
          && s.messages[id].retry == 0 && s.messages[id].place.Ready?)
    && (forall job :: job in s.books.db.jobs ==> exists id :: id in s.messages && s.messages[id].job == job)
  }

  ghost predicate Run(states: seq<System>, events: seq<Event>) {
    && |states| == |events| + 1
    && Start(states[0])
    && forall i :: 0 <= i < |events| ==> TakesStep(states, events, i)
  }

  ghost predicate TakesStep(states: seq<System>, events: seq<Event>, i: int)
    requires 0 <= i < |events| < |states|
  {
    Can(states[i], events[i]) && states[i + 1] == Next(states[i], events[i])
  }

  lemma StartIsSound(s: System)
    requires Start(s)
    ensures SystemInv(s)
  {
    forall id | id in s.messages ensures MessageOk(s, id) {
    }
  }

  lemma StartCarries(s: System, job: string)
    requires Start(s) && job in s.books.db.jobs
    ensures HasCarrier(s, job)
  {
    var id :| id in s.messages && s.messages[id].job == job;
    assert Carried(s, id, job);
  }

  lemma RunTakesStep(states: seq<System>, events: seq<Event>, n: nat)
    requires Run(states, events) && n < |events|
    ensures Can(states[n], events[n]) && states[n + 1] == Next(states[n], events[n])
  {
    assert TakesStep(states, events, n);
  }

  lemma {:induction false} RunKeepsInv(states: seq<System>, events: seq<Event>, i: nat)
    requires Run(states, events) && i < |states|
    ensures SystemInv(states[i])
  {
    if i == 0 {
      StartIsSound(states[0]);
    } else {
      RunKeepsInv(states, events, i - 1);
      RunTakesStep(states, events, i - 1);
      NextKeepsInv(states[i - 1], events[i - 1]);
    }
  }

  /** Some handler gave the job up before state `i`. */
  ghost predicate GivenUp(states: seq<System>, events: seq<Event>, i: nat, job: string)
    requires Run(states, events) && i < |states|
  {
    exists k, h :: 0 <= k < i && Can(states[k], events[k]) && GivesUp(states[k], events[k], h) && states[k].handlers[h].job == job
  }

  lemma {:induction false} CarriedUnlessGivenUp(states: seq<System>, events: seq<Event>, i: nat, job: string)
    requires Run(states, events) && i < |states| && Unfinished(states[i], job) && !GivenUp(states, events, i, job)
    ensures HasCarrier(states[i], job)
  {
    if i == 0 {
      StartCarries(states[0], job);
    } else {
      var s, e := states[i - 1], events[i - 1];
      RunTakesStep(states, events, i - 1);
      RunKeepsInv(states, events, i - 1);
      WasUnfinished(s, e, job);
      if Unfinished(s, job) {
        CarriedUnlessGivenUp(states, events, i - 1, job);
      }
      NextKeepsCarrier(s, e, job);
    }
  }

  lemma WasUnfinished(s: System, e: Event, job: string)
    requires SystemInv(s) && Can(s, e) && Unfinished(Next(s, e), job)
    ensures Unfinished(s, job) || (e.Outside? && e.step.Enqueue? && e.step.job == job)
  {
    EventGrows(s, e);
    if job !in s.books.db.jobs {
      OnlyEnqueueAddsJobs(s, e, job);
    }
  }

  lemma OnlyEnqueueAddsJobs(s: System, e: Event, job: string)
    requires Wired(s) && Can(s, e) && job in Next(s, e).books.db.jobs && job !in s.books.db.jobs
    ensures e.Outside? && e.step.Enqueue? && e.step.job == job
  {
    assert forall h :: In(s, h) ==> HandlerOk(s, h);
    if e.TryCommit? {
      CommitAddsNoJob(s.books.db, e.payload, e.solved, s.handlers[e.handler].job, s.handlers[e.handler].retry,
                      Some(s.handlers[e.handler].phase.token));
    } else {
      OthersAddNoJob(s, e, job);
    }
  }

  lemma CommitAddsNoJob(db: Db, p: SolvePayload, solved: seq<Shift>, job: string, retry: int, token: Option<Token>)
    ensures Commit(db, p, solved, job, retry, token).0.jobs.Keys == db.jobs.Keys
  {
  }

  lemma OthersAddNoJob(s: System, e: Event, job: string)
    requires Can(s, e) && !e.TryCommit? && job in Next(s, e).books.db.jobs && job !in s.books.db.jobs
    requires forall h :: In(s, h) ==> s.handlers[h].job in s.books.db.jobs
    ensures e.Outside? && e.step.Enqueue? && e.step.job == job
  {
    if Actor(e).Some? {
      OwnStepsAddNoJob(s, e);
    } else {
      QuietEventsAddNoJob(s, e, job);
    }
  }

  lemma QuietEventsAddNoJob(s: System, e: Event, job: string)
    requires Can(s, e) && Actor(e).None? && job in Next(s, e).books.db.jobs && job !in s.books.db.jobs
    ensures e.Outside? && e.step.Enqueue? && e.step.job == job
  {
  }

  lemma OwnStepsAddNoJob(s: System, e: Event)
    requires Can(s, e) && !e.TryCommit? && Actor(e).Some? && s.handlers[Actor(e).value].job in s.books.db.jobs
    ensures Next(s, e).books.db.jobs.Keys == s.books.db.jobs.Keys
  {
    if e.TryClaim? {
      assert Claims(s, e.handler, e.token, e.leaseLength, e.fault).books.db.jobs.Keys == s.books.db.jobs.Keys;
    }
  }

  /** A message for the job is waiting in a queue, or unsettled with a handler. */
  ghost predicate HasLiveMessage(s: System, job: string) {
    exists id :: id in s.messages && s.messages[id].job == job
                 && (s.messages[id].place.InFlight? ==> In(s, s.messages[id].place.handler))
  }

  /**
   In every run whatever, through crashes, disconnects, lost publishes, lapsed subscriptions and failed
   marks: an unfinished job has a live message unless some handler gave it up.
   */
  lemma StrandedOnlyIfGivenUp(states: seq<System>, events: seq<Event>, i: nat, job: string)
    requires Run(states, events) && i < |states| && Unfinished(states[i], job)
    ensures HasLiveMessage(states[i], job) || GivenUp(states, events, i, job)
  {
    if !GivenUp(states, events, i, job) {
      CarriedUnlessGivenUp(states, events, i, job);
      var id :| Carried(states[i], id, job);
      assert id in states[i].messages;
    }
  }

  // ---- when a message goes without a copy ----

  lemma ReasonsLeadOut(s: System, e: Event, h: nat)
    requires SystemInv(s) && Reason(s, e, h)
    ensures OnTheWayOut(Next(s, e), h)
  {
    if e.TryCommit? {
      CommitLeavesExactly(s, h, e.payload, e.solved);
    } else if e.StoreFailed? {
      FailureLeavesExactly(s, h);
    }
  }

  /** The handler is on the way out, or gone for good. */
  predicate Out(s: System, h: nat) { h < s.nextId && (In(s, h) ==> OnTheWayOut(s, h)) }

  lemma OutStaysOut(s: System, e: Event, t: System, h: nat)
    requires Can(s, e) && t == Next(s, e) && Out(s, h)
    ensures Out(t, h)
  {
    IdsGrow(s, e);
    if In(t, h) {
      if Actor(e) == Some(h) {
        OwnStepStaysOut(s, e, h);
      } else {
        OthersStay(s, e, h);
      }
    }
  }

  lemma IdsGrow(s: System, e: Event)
    requires Can(s, e)
    ensures s.nextId <= Next(s, e).nextId
  {
  }

  lemma OwnStepStaysOut(s: System, e: Event, h: nat)
    requires Can(s, e) && Actor(e) == Some(h) && OnTheWayOut(s, h)
    ensures OnTheWayOut(Next(s, e), h)
  {
  }

  lemma ReasonHolds(s: System, e: Event, t: System, h: nat)
    requires SystemInv(s) && Reason(s, e, h) && t == Next(s, e)
    ensures Out(t, h)
  {
    EventGrows(s, e);
    assert HandlerOk(s, h);
    ReasonsLeadOut(s, e, h);
  }

  lemma {:induction false} OutLasts(states: seq<System>, events: seq<Event>, j: nat, i: nat, h: nat)
    requires Run(states, events) && j <= i < |states| && Out(states[j], h)
    ensures Out(states[i], h)
  {
    if j < i {
      OutLasts(states, events, j, i - 1, h);
      RunTakesStep(states, events, i - 1);
      OutStaysOut(states[i - 1], events[i - 1], states[i], h);
    }
  }

  lemma ReasonLasts(states: seq<System>, events: seq<Event>, k: nat, i: nat, h: nat)
    requires Run(states, events) && k < i < |states| && Reason(states[k], events[k], h)
    ensures Out(states[i], h)
  {
    ReasonHoldsInRun(states, events, k, h);
    OutLasts(states, events, k + 1, i, h);
  }

  lemma ReasonHoldsInRun(states: seq<System>, events: seq<Event>, k: nat, h: nat)
    requires Run(states, events) && k < |events| && Reason(states[k], events[k], h)
    ensures Out(states[k + 1], h)
  {
    RunTakesStep(states, events, k);
    RunKeepsInv(states, events, k);
    ReasonHolds(states[k], events[k], states[k + 1], h);
  }

  lemma {:induction false} OutHasReason(states: seq<System>, events: seq<Event>, i: nat, h: nat)
    requires Run(states, events) && i < |states| && OnTheWayOut(states[i], h) && Unfinished(states[i], states[i].handlers[h].job)
    ensures exists k :: 0 <= k < i && Reason(states[k], events[k], h)
  {
    if i > 0 {
      RunTakesStep(states, events, i - 1);
      RunKeepsInv(states, events, i - 1);
      NewlyOut(states[i - 1], events[i - 1], h);
      if !Reason(states[i - 1], events[i - 1], h) {
        OutHasReason(states, events, i - 1, h);
      }
    }
  }

  /**
   In every run a message of an unfinished job disappears exactly when a handler that owns it finishes
   after giving the job up or after a copy of the message was confirmed.
   */
  lemma DroppedExactly(states: seq<System>, events: seq<Event>, i: nat, id: nat)
    requires Run(states, events) && i < |events| && id in states[i].messages && Unfinished(states[i], states[i].messages[id].job)
    ensures id !in states[i + 1].messages <==>
              && events[i].Finish? && In(states[i], events[i].handler)
              && states[i].handlers[events[i].handler].message == id && Owns(states[i], events[i].handler)
              && exists k :: 0 <= k < i && Reason(states[k], events[k], events[i].handler)
  {
    var s, e := states[i], events[i];
    RunTakesStep(states, events, i);
    RunKeepsInv(states, events, i);
    MessageVanishesExactly(s, e, id);
    if e.Finish? && s.handlers[e.handler].message == id && Owns(s, e.handler) {
      var h := e.handler;
      assert MessageOk(s, id) && HandlerOk(s, h);
      if OnTheWayOut(s, h) {
        OutHasReason(states, events, i, h);
      }
      if k :| 0 <= k < i && Reason(states[k], events[k], h) {
        ReasonLasts(states, events, k, i, h);
      }
    }
  }

  // ---- two conditions under which no job is given up ----

  /** The handler is executing, or storing the failure of, a claim. */
  predicate UnderClaim(s: System, h: nat) {
    In(s, h) && (s.handlers[h].phase.Executing? || s.handlers[h].phase.Condemned?) && Held(s.handlers[h].phase).Some?
  }

  /** No unfinished job's token is replaced under a handler that still works with it. */
  ghost predicate ClaimsKept(s: System) {
    forall h :: UnderClaim(s, h) && Unfinished(s, s.handlers[h].job) ==> TokenOf(s, s.handlers[h].job) == Held(s.handlers[h].phase)
  }

  /** Whoever claims a job, or marks it for retry, finds no other handler at work on it beyond its lease. */
  ghost predicate LeasesOutlast(s: System, e: Event)
    requires Can(s, e)
  {
    e.TryClaim? || e.StoreRetrying? ==> LeasesOutlastOthers(s, e.handler)
  }

  /** Whoever stores the failure of a refused claim finds no live lease on the job. */
  predicate RefusalsUnleased(s: System, e: Event)
    requires e.StoreFailed? ==> In(s, e.handler) && s.handlers[e.handler].phase.Condemned?
  {
    e.StoreFailed? && s.handlers[e.handler].phase.held.None? && s.handlers[e.handler].job in s.books.db.jobs ==>
      !LeaseLive(s.books.db.jobs[s.handlers[e.handler].job], s.books.db.now)
  }

  /** The operating assumptions at one step. */
  ghost predicate Calm(s: System, e: Event)
    requires Can(s, e)
  {
    LeasesOutlast(s, e) && RefusalsUnleased(s, e)
  }

  ghost predicate LeasesOutlastOthers(s: System, h: nat)
    requires In(s, h)
  {
    var job := s.handlers[h].job;
    job in s.books.db.jobs ==>
      forall g :: g != h && UnderClaim(s, g) && s.handlers[g].job == job && TokenOf(s, job) == Held(s.handlers[g].phase) ==>
        LeaseLive(s.books.db.jobs[job], s.books.db.now)
  }

  lemma CalmGivesNothingUp(s: System, e: Event, h: nat)
    requires SystemInv(s) && Can(s, e) && Calm(s, e) && ClaimsKept(s)
    ensures !GivesUp(s, e, h)
  {
    if In(s, h) {
      assert HandlerOk(s, h);
      assert History.RowOk(s.books, s.handlers[h].job);
    }
    assert UnderClaim(s, h) && Unfinished(s, s.handlers[h].job) ==> TokenOf(s, s.handlers[h].job) == Held(s.handlers[h].phase);
  }

  /** The handler whose event may replace the token of a job that stays unfinished: a claimant or a retry marker. */
  predicate MayReplaceToken(s: System, e: Event, job: string)
    requires Can(s, e)
  {
    (e.TryClaim? || e.StoreRetrying?) && s.handlers[e.handler].job == job
  }

  lemma CommitKeepsTokens(s: System, h: nat, payload: SolvePayload, solved: seq<Shift>, fault: Fault, job: string)
    requires Can(s, TryCommit(h, payload, solved, fault))
    requires Unfinished(s, job) && Unfinished(Commits(s, h, payload, solved, fault), job)
    ensures TokenOf(Commits(s, h, payload, solved, fault), job) == TokenOf(s, job)
  {
  }

  lemma RefundKeepsTokens(s: System, e: Event, job: string)
    requires Can(s, e) && (e.StoreFailed? || e.StoreDeadLettered?)
    requires Unfinished(s, job) && Unfinished(Next(s, e), job)
    ensures TokenOf(Next(s, e), job) == TokenOf(s, job)
  {
  }

  lemma OtherEventsKeepTokens(s: System, e: Event, job: string)
    requires Can(s, e) && Unfinished(s, job) && Unfinished(Next(s, e), job)
    requires !e.TryCommit? && !e.StoreFailed? && !e.StoreDeadLettered? && !MayReplaceToken(s, e, job)
    ensures TokenOf(Next(s, e), job) == TokenOf(s, job)
  {
  }

  lemma TokensStay(s: System, e: Event, job: string)
    requires Can(s, e) && Unfinished(s, job) && Unfinished(Next(s, e), job) && !MayReplaceToken(s, e, job)
    ensures TokenOf(Next(s, e), job) == TokenOf(s, job)
  {
    match e {
      case TryCommit(h, payload, solved, fault) => CommitKeepsTokens(s, h, payload, solved, fault, job);
      case StoreFailed(_, _) => RefundKeepsTokens(s, e, job);
      case StoreDeadLettered(_, _) => RefundKeepsTokens(s, e, job);
      case _ => OtherEventsKeepTokens(s, e, job);
    }
  }

  lemma CalmClaimSpares(s: System, h: nat, token: Token, leaseLength: int, fault: Fault, g: nat)
    requires SystemInv(s) && Can(s, TryClaim(h, token, leaseLength, fault)) && LeasesOutlastOthers(s, h)
    requires g != h && UnderClaim(s, g) && s.handlers[g].job == s.handlers[h].job && Unfinished(s, s.handlers[g].job)
    requires TokenOf(s, s.handlers[g].job) == Held(s.handlers[g].phase)
    ensures Claims(s, h, token, leaseLength, fault).books.db == s.books.db
  {
    assert HandlerOk(s, g);
    assert History.RowOk(s.books, s.handlers[g].job);
  }

  lemma CalmMarkSpares(s: System, h: nat, fault: Fault, g: nat)
    requires SystemInv(s) && Can(s, StoreRetrying(h, fault)) && LeasesOutlastOthers(s, h)
    requires g != h && UnderClaim(s, g) && s.handlers[g].job == s.handlers[h].job && Unfinished(s, s.handlers[g].job)
    requires TokenOf(s, s.handlers[g].job) == Held(s.handlers[g].phase)
    ensures Marks(s, h, fault).books.db == s.books.db
  {
    assert HandlerOk(s, g) && HandlerOk(s, h);
    assert History.RowOk(s.books, s.handlers[g].job);
    assert Held(s.handlers[h].phase).Some? ==> Held(s.handlers[g].phase) != Held(s.handlers[h].phase);
  }

  lemma CalmKeepsOthersClaims(s: System, e: Event, g: nat)
    requires SystemInv(s) && Can(s, e) && Calm(s, e) && ClaimsKept(s)
    requires UnderClaim(s, g) && Actor(e) != Some(g) && Unfinished(s, s.handlers[g].job) && Unfinished(Next(s, e), s.handlers[g].job)
    ensures TokenOf(Next(s, e), s.handlers[g].job) == TokenOf(s, s.handlers[g].job)
  {
    var job := s.handlers[g].job;
    if MayReplaceToken(s, e, job) {
      match e {
        case TryClaim(h, token, leaseLength, fault) => CalmClaimSpares(s, h, token, leaseLength, fault, g);
        case StoreRetrying(h, fault) => CalmMarkSpares(s, h, fault, g);
      }
    } else {
      TokensStay(s, e, job);
    }
  }

  lemma WonClaimIsHeld(s: System, h: nat, token: Token, leaseLength: int, fault: Fault)
    requires Can(s, TryClaim(h, token, leaseLength, fault)) && s.handlers[h].job in s.books.db.jobs
    requires UnderClaim(Claims(s, h, token, leaseLength, fault), h)
    ensures TokenOf(Claims(s, h, token, leaseLength, fault), s.handlers[h].job) == Some(token)
    ensures Held(Claims(s, h, token, leaseLength, fault).handlers[h].phase) == Some(token)
  {
  }

  /** Apart from winning a claim, a handler under a claim was under it before. */
  lemma UnderClaimBefore(s: System, e: Event, h: nat)
    requires Can(s, e) && Actor(e) == Some(h) && !e.TryClaim? && UnderClaim(Next(s, e), h)
    ensures UnderClaim(s, h) && Held(s.handlers[h].phase) == Held(Next(s, e).handlers[h].phase) && !e.StoreRetrying?
    ensures Next(s, e).handlers[h].job == s.handlers[h].job
  {
  }

  lemma OwnClaimKept(s: System, e: Event, h: nat)
    requires Can(s, e) && Actor(e) == Some(h) && ClaimsKept(s) && In(s, h) && s.handlers[h].job in s.books.db.jobs
    requires UnderClaim(Next(s, e), h) && Unfinished(Next(s, e), s.handlers[h].job) && Unfinished(s, s.handlers[h].job)
    ensures TokenOf(Next(s, e), s.handlers[h].job) == Held(Next(s, e).handlers[h].phase)
  {
    if e.TryClaim? {
      WonClaimIsHeld(s, h, e.token, e.leaseLength, e.fault);
    } else {
      UnderClaimBefore(s, e, h);
      TokensStay(s, e, s.handlers[h].job);
    }
  }

  lemma ClaimKept(s: System, e: Event, h: nat)
    requires SystemInv(s) && Can(s, e) && Calm(s, e) && ClaimsKept(s) && Grows(s, Next(s, e))
    requires UnderClaim(Next(s, e), h) && Unfinished(Next(s, e), Next(s, e).handlers[h].job)
    ensures TokenOf(Next(s, e), Next(s, e).handlers[h].job) == Held(Next(s, e).handlers[h].phase)
  {
    assert In(s, h) ==> HandlerOk(s, h);
    if Actor(e) == Some(h) {
      OwnStepJob(s, e, h);
      OwnClaimKept(s, e, h);
    } else {
      OthersStay(s, e, h);
      CalmKeepsOthersClaims(s, e, h);
    }
  }

  lemma OwnStepJob(s: System, e: Event, h: nat)
    requires Can(s, e) && Actor(e) == Some(h)
    ensures In(s, h) && In(Next(s, e), h) && Next(s, e).handlers[h].job == s.handlers[h].job
  {
  }

  lemma CalmKeepsClaims(s: System, e: Event)
    requires SystemInv(s) && Can(s, e) && Calm(s, e) && ClaimsKept(s)
    ensures ClaimsKept(Next(s, e))
  {
    var t := Next(s, e);
    EventGrows(s, e);
    forall h | UnderClaim(t, h) && Unfinished(t, t.handlers[h].job) ensures TokenOf(t, t.handlers[h].job) == Held(t.handlers[h].phase) {
      ClaimKept(s, e, h);
    }
  }

  ghost predicate CalmRun(states: seq<System>, events: seq<Event>, i: nat)
    requires Run(states, events) && i <= |events|
  {
    forall k :: 0 <= k < i ==> Can(states[k], events[k]) && Calm(states[k], events[k])
  }

  lemma {:induction false} CalmRunKeepsClaims(states: seq<System>, events: seq<Event>, i: nat)
    requires Run(states, events) && i < |states| && CalmRun(states, events, i)
    ensures ClaimsKept(states[i])
  {
    if i > 0 {
      CalmRunKeepsClaims(states, events, i - 1);
      RunKeepsInv(states, events, i - 1);
      assert TakesStep(states, events, i - 1);
      CalmKeepsClaims(states[i - 1], events[i - 1]);
    }
  }

  /** In calm runs no unfinished job is ever without a live message. */
  lemma NeverStranded(states: seq<System>, events: seq<Event>, i: nat, job: string)
    requires Run(states, events) && i < |states| && CalmRun(states, events, i)
    requires Unfinished(states[i], job)
    ensures HasLiveMessage(states[i], job)
  {
    StrandedOnlyIfGivenUp(states, events, i, job);
    if GivenUp(states, events, i, job) {
      var k, h :| 0 <= k < i && Can(states[k], events[k]) && GivesUp(states[k], events[k], h) && states[k].handlers[h].job == job;
      CalmStepGivesNothingUp(states, events, i, k, h);
    }
  }

  lemma CalmStepGivesNothingUp(states: seq<System>, events: seq<Event>, i: nat, k: nat, h: nat)
    requires Run(states, events) && k < i < |states| && CalmRun(states, events, i)
    ensures Can(states[k], events[k]) && !GivesUp(states[k], events[k], h)
  {
    RunKeepsInv(states, events, k);
    CalmRunKeepsClaims(states, events, k);
    CalmGivesNothingUp(states[k], events[k], h);
  }

  // ---- subscriptions that stay paid are more than enough ----

  ghost predicate Paid(s: System) {
    forall job :: job in s.books.db.jobs ==> Entitled(s.books.db, s.books.db.jobs[job].scope.tenant)
  }

  /** No handler is storing the failure of a refused claim on an unfinished job. */
  ghost predicate NothingRefused(s: System) {
    forall h :: In(s, h) && s.handlers[h].phase == Condemned(None) ==> !Unfinished(s, s.handlers[h].job)
  }

  lemma PaidClaimIsNotRefused(s: System, h: nat, token: Token, leaseLength: int, fault: Fault)
    requires History.Inv(s.books) && Paid(s) && Can(s, TryClaim(h, token, leaseLength, fault)) && s.handlers[h].job in s.books.db.jobs
    ensures Claims(s, h, token, leaseLength, fault).handlers[h].phase != Condemned(None)
  {
    assert History.RowOk(s.books, s.handlers[h].job);
  }

  lemma OnlyClaimsAreRefused(s: System, e: Event, h: nat)
    requires Can(s, e) && Actor(e) == Some(h) && !e.TryClaim?
    ensures Next(s, e).handlers[h].phase != Condemned(None)
  {
  }

  lemma PaidRefusesNothing(s: System, e: Event)
    requires SystemInv(s) && Can(s, e) && Paid(s) && NothingRefused(s)
    ensures NothingRefused(Next(s, e))
  {
    var t := Next(s, e);
    EventGrows(s, e);
    forall h | In(t, h) && t.handlers[h].phase == Condemned(None) ensures !Unfinished(t, t.handlers[h].job) {
      assert In(s, h) ==> HandlerOk(s, h);
      if Actor(e) != Some(h) {
        OthersStay(s, e, h);
      } else if e.TryClaim? {
        PaidClaimIsNotRefused(s, h, e.token, e.leaseLength, e.fault);
      } else {
        OnlyClaimsAreRefused(s, e, h);
      }
    }
  }

  lemma {:induction false} PaidRunRefusesNothing(states: seq<System>, events: seq<Event>, i: nat)
    requires Run(states, events) && i < |states| && forall k :: 0 <= k < i ==> Paid(states[k])
    ensures NothingRefused(states[i])
  {
    if i > 0 {
      PaidRunRefusesNothing(states, events, i - 1);
      PaidStepRefusesNothing(states, events, i - 1);
    }
  }

  lemma PaidStepRefusesNothing(states: seq<System>, events: seq<Event>, k: nat)
    requires Run(states, events) && k < |events| && Paid(states[k]) && NothingRefused(states[k])
    ensures NothingRefused(states[k + 1])
  {
    RunTakesStep(states, events, k);
    RunKeepsInv(states, events, k);
    PaidRefusesNothing(states[k], events[k]);
  }

  lemma RefusesNothingIsUnleased(s: System, e: Event)
    requires History.Inv(s.books) && Can(s, e) && NothingRefused(s)
    ensures RefusalsUnleased(s, e)
  {
    if e.StoreFailed? && s.handlers[e.handler].job in s.books.db.jobs {
      assert History.RowOk(s.books, s.handlers[e.handler].job);
    }
  }

  /** Where every tenant is paid at every moment, leases that outlast their handlers make a run calm. */
  lemma PaidIsEnough(states: seq<System>, events: seq<Event>, i: nat)
    requires Run(states, events) && i < |states| && forall k :: 0 <= k < i ==> Paid(states[k])
    requires forall k :: 0 <= k < i ==> Can(states[k], events[k]) && LeasesOutlast(states[k], events[k])
    ensures CalmRun(states, events, i)
  {
    forall k | 0 <= k < i ensures Can(states[k], events[k]) && Calm(states[k], events[k]) {
      PaidRunRefusesNothing(states, events, k);
      RunKeepsInv(states, events, k);
      RefusesNothingIsUnleased(states[k], events[k]);
    }
  }

  // ---- retries and settlement in every run ----

  /** Retry accounting holds in every run: no message's count ever passes the budget, and it waits in the queue of its count. */
  lemma RetriesStayInBudget(states: seq<System>, events: seq<Event>, i: nat, id: nat)
    requires Run(states, events) && i < |states| && id in states[i].messages
    ensures var m := states[i].messages[id];
            && m.retry <= states[i].maxRetries
            && (m.place.Delayed? ==> 1 <= m.place.queue <= DeclaredQueueCount(states[i].maxRetries)
                                     && m.place.queue == QueueIndex(m.retry))
  {
    RunKeepsInv(states, events, i);
    assert MessageOk(states[i], id);
  }

  /** A handler about to dead-letter its message belongs to a finished job. */
  lemma DeadLettersAreFinished(states: seq<System>, events: seq<Event>, i: nat, h: nat)
    requires Run(states, events) && i < |states| && In(states[i], h) && states[i].handlers[h].phase.Rejecting?
    ensures states[i].handlers[h].job in states[i].books.db.jobs && !Unfinished(states[i], states[i].handlers[h].job)
  {
    RunKeepsInv(states, events, i);
    assert HandlerOk(states[i], h);
  }

  /** What a worker remembers as completed has succeeded in the database, in every run. */
  lemma CompletedKeysAgree(states: seq<System>, events: seq<Event>, i: nat, worker: nat, job: string)
    requires Run(states, events) && i < |states| && (worker, job) in states[i].completed
    ensures job in states[i].books.db.jobs && states[i].books.db.jobs[job].status.Succeeded?
  {
    RunKeepsInv(states, events, i);
    assert (worker, job).1 == job;
  }
}
