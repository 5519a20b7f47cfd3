/**
 At-least-once delivery around the job transactions: messages in the main and
 retry queues, handlers that work on one delivery each, publishes that may be
 lost or unconfirmed, transactions that may fail before or after they commit,
 crashes between any two steps, and handlers that outlive their connection.
 */
module Delivery {
  import opened Results
  import opened Shifts
  import opened Jobs
  import History = JobHistory
  import opened RetryQueues

  datatype Place = Ready | Delayed(queue: int) | InFlight(handler: nat)

  datatype Message = Message(job: string, retry: nat, place: Place)

  /** Where a handler stands; a token is the one its own claim won. */
  datatype Phase =
    | Received
    | Executing(token: Token)
    | Condemned(held: Option<Token>)   // a non-retryable error, FAILED not yet stored
    | Delaying                         // the job is busy, delayed copy not yet published
    | Faulted(held: Option<Token>)     // a retryable error, replacement not yet published
    | Replaced(held: Option<Token>)    // replacement confirmed, RETRYING not yet stored
    | Acking
    | Rejecting
    | Requeueing

  datatype Handler = Handler(worker: nat, message: nat, job: string, retry: nat, phase: Phase)

  datatype System = System(
    books: History.State,
    maxRetries: nat,
    nextId: nat,
    messages: map<nat, Message>,
    handlers: map<nat, Handler>,
    completed: set<(nat, string)>)   // worker and job, for the solve keys each worker remembers

  /** A transaction may commit and report it, fail and roll back, or commit and still report an error. */
  datatype Fault = Clean | RolledBack | Unreported

  datatype Confirm = Confirmed | Lost | Unconfirmed

  datatype Event =
    | Deliver(message: nat, worker: nat)
    | TryClaim(handler: nat, token: Token, leaseLength: int, fault: Fault)
    | SkipCompleted(handler: nat)
    | EngineFails(handler: nat)
    | EngineRejects(handler: nat)
    | TryCommit(handler: nat, payload: SolvePayload, solved: seq<Shift>, fault: Fault)
    | StoreFailed(handler: nat, fault: Fault)
    | StoreDeadLettered(handler: nat, fault: Fault)
    | Publish(handler: nat, confirm: Confirm)
    | StoreRetrying(handler: nat, fault: Fault)
    | Finish(handler: nat)
    | Crash(handler: nat)
    | Disconnect(handler: nat)
    | Forget(worker: nat, job: string)
    | DelayOver(message: nat)
    | Republish(job: string)
    | Outside(step: History.Step)

  predicate In(s: System, h: nat) {
    h in s.handlers
  }

  /** The handler still owns its delivery; otherwise the broker has taken it back. */
  predicate Owns(s: System, h: nat)
    requires In(s, h)
  {
    s.handlers[h].message in s.messages && s.messages[s.handlers[h].message].place == InFlight(h)
  }

  function JobScope(s: System, h: nat): Scope
    requires In(s, h) && s.handlers[h].job in s.books.db.jobs
  {
    s.books.db.jobs[s.handlers[h].job].scope
  }

  // ---- which events can happen ----

  ghost predicate Can(s: System, e: Event) {
    match e
    case Deliver(message, _) => message in s.messages && s.messages[message].place.Ready?
    case TryClaim(h, token, leaseLength, _) =>
      In(s, h) && s.handlers[h].phase.Received? && s.books.nextToken <= token && 0 < leaseLength
    case SkipCompleted(h) =>
      In(s, h) && s.handlers[h].phase.Executing? && (s.handlers[h].worker, s.handlers[h].job) in s.completed
    case EngineFails(h) => In(s, h) && s.handlers[h].phase.Executing?
    case EngineRejects(h) => In(s, h) && s.handlers[h].phase.Executing?
    case TryCommit(h, payload, _, _) =>
      && In(s, h) && s.handlers[h].phase.Executing?
      && s.handlers[h].job in s.books.db.jobs && payload.scope == JobScope(s, h)
    case StoreFailed(h, _) => In(s, h) && s.handlers[h].phase.Condemned?
    case StoreDeadLettered(h, _) => In(s, h) && s.handlers[h].phase.Faulted? && s.maxRetries <= s.handlers[h].retry
    case Publish(h, _) =>
      In(s, h) && (s.handlers[h].phase.Delaying? || (s.handlers[h].phase.Faulted? && s.handlers[h].retry < s.maxRetries))
    case StoreRetrying(h, _) => In(s, h) && s.handlers[h].phase.Replaced?
    case Finish(h) =>
      In(s, h) && (s.handlers[h].phase.Acking? || s.handlers[h].phase.Rejecting? || s.handlers[h].phase.Requeueing?)
    case Crash(h) => In(s, h)
    case Disconnect(h) => In(s, h)
    case Forget(_, _) => true
    case DelayOver(message) => message in s.messages && s.messages[message].place.Delayed?
    case Republish(job) => job in s.books.db.jobs
    case Outside(step) =>
      && History.Enabled(s.books, step)
      && (step.Enqueue? || step.OtherCredit? || step.Subscription? || step.EditPlan? || step.Tick?)
  }

  // ---- what they do ----

  function Move(s: System, h: nat, phase: Phase): System
    requires In(s, h)
  {
    s.(handlers := s.handlers[h := s.handlers[h].(phase := phase)])
  }

  function AddMessage(s: System, m: Message): System {
    s.(messages := s.messages[s.nextId := m], nextId := s.nextId + 1)
  }

  /** Takes the handler off its delivery, leaving it ready for anyone. */
  function TakeBack(s: System, h: nat): System
    requires In(s, h)
  {
    if Owns(s, h) then
      var id := s.handlers[h].message;
      s.(messages := s.messages[id := s.messages[id].(place := Ready)])
    else s
  }

  function Drop(s: System, h: nat): System {
    s.(handlers := s.handlers - {h})
  }

  function WithDb(s: System, db: Db): System {
    s.(books := s.books.(db := db))
  }

  /** The database after a transaction that would have reached `db`. */
  function After(s: System, db: Db, fault: Fault): System {
    if fault.RolledBack? then s else WithDb(s, db)
  }

  function ClaimPhase(outcome: Outcome, token: Token): Phase {
    match outcome
    case Claimed => Executing(token)
    case AlreadyTerminal => Acking
    case Busy => Delaying
    case NonRetryable => Condemned(None)
    case _ => Faulted(None)
  }

  function CommitPhase(outcome: Outcome, token: Token): Phase {
    match outcome
    case Done => Acking
    case OwnershipLost => Acking
    case NonRetryable => Condemned(Some(token))
    case _ => Faulted(Some(token))
  }

  function FailedPhase(outcome: Outcome): Phase {
    match outcome
    case Done => Rejecting
    case OwnershipLost => Acking
    case _ => Faulted(None)
  }

  function Hand(s: System, id: nat, worker: nat): System
    requires id in s.messages
  {
    var m := s.messages[id];
    var h := s.nextId;
    s.(nextId := h + 1,
       messages := s.messages[id := m.(place := InFlight(h))],
       handlers := s.handlers[h := Handler(worker, id, m.job, m.retry, Received)])
  }

  function ClaimOf(s: System, h: nat, token: Token, leaseLength: int): (Db, Outcome)
    requires In(s, h) && s.handlers[h].job in s.books.db.jobs
  {
    Claim(s.books.db, JobScope(s, h), s.handlers[h].job, s.handlers[h].retry, token, leaseLength)
  }

  function Claims(s: System, h: nat, token: Token, leaseLength: int, fault: Fault): System
    requires In(s, h)
  {
    if s.handlers[h].job !in s.books.db.jobs then Move(s, h, Condemned(None))
    else
      var (db, outcome) := ClaimOf(s, h, token, leaseLength);
      var t := Move(After(s, db, fault), h, if fault.Clean? then ClaimPhase(outcome, token) else Faulted(None));
      t.(books := t.books.(nextToken := token + 1))
  }

  function Commits(s: System, h: nat, payload: SolvePayload, solved: seq<Shift>, fault: Fault): System
    requires In(s, h) && s.handlers[h].phase.Executing?
  {
    var w := s.handlers[h];
    var (db, outcome) := Commit(s.books.db, payload, solved, w.job, w.retry, Some(w.phase.token));
    var t := Move(After(s, db, fault), h, if fault.Clean? then CommitPhase(outcome, w.phase.token) else Faulted(Some(w.phase.token)));
    if fault.Clean? && outcome.Done? then t.(completed := t.completed + {(w.worker, w.job)}) else t
  }

  /** The refunding step a handler takes with the token it holds, if it still holds one. */
  function RefundOf(s: System, h: nat, status: Status, retry: nat, held: Option<Token>): (Db, Outcome)
    requires In(s, h) && s.handlers[h].job in s.books.db.jobs && Refunding(status)
  {
    Terminalize(s.books.db, JobScope(s, h), s.handlers[h].job, status, retry, held)
  }

  function Fails(s: System, h: nat, fault: Fault): System
    requires In(s, h) && s.handlers[h].phase.Condemned?
  {
    var w := s.handlers[h];
    if w.job !in s.books.db.jobs then Move(s, h, Acking)
    else
      var (db, outcome) := RefundOf(s, h, Failed, w.retry, w.phase.held);
      Move(After(s, db, fault), h, if fault.Clean? then FailedPhase(outcome) else Faulted(None))
  }

  function DeadLetters(s: System, h: nat, fault: Fault): System
    requires In(s, h) && s.handlers[h].phase.Faulted?
  {
    var w := s.handlers[h];
    if w.job !in s.books.db.jobs then Move(s, h, Requeueing)
    else
      var (db, outcome) := RefundOf(s, h, DeadLettered, s.maxRetries, w.phase.held);
      Move(After(s, db, fault), h, if fault.Clean? && outcome.Done? then Rejecting else Requeueing)
  }

  /** The replacement: one more retry after a fault, the same count for a busy job. */
  function Copy(w: Handler): Message {
    var raise := if w.phase.Faulted? then 1 else 0;
    Message(w.job, w.retry + raise, Delayed(QueueIndex(w.retry + raise)))
  }

  function Publishes(s: System, h: nat, confirm: Confirm): System
    requires In(s, h)
  {
    var w := s.handlers[h];
    var t := if confirm.Lost? then s else AddMessage(s, Copy(w));
    Move(t, h, if !confirm.Confirmed? then Requeueing else if w.phase.Faulted? then Replaced(w.phase.held) else Acking)
  }

  function Marks(s: System, h: nat, fault: Fault): System
    requires In(s, h) && s.handlers[h].phase.Replaced?
  {
    var w := s.handlers[h];
    if w.job !in s.books.db.jobs then Move(s, h, Acking)
    else Move(After(s, MarkRetrying(s.books.db, JobScope(s, h), w.job, w.retry + 1, w.phase.held), fault), h, Acking)
  }

  /** Acknowledging and dead-lettering take the message away for good; requeueing returns it. */
  function Finishes(s: System, h: nat): System
    requires In(s, h)
  {
    if s.handlers[h].phase.Requeueing? then Drop(TakeBack(s, h), h)
    else if Owns(s, h) then Drop(s.(messages := s.messages - {s.handlers[h].message}), h)
    else Drop(s, h)
  }

  ghost function Happens(s: System, step: History.Step): System
    requires History.Enabled(s.books, step)
  {
    var t := s.(books := History.Apply(s.books, step));
    if step.Enqueue? then AddMessage(t, Message(step.job, 0, Ready)) else t
  }

  ghost function Next(s: System, e: Event): System
    requires Can(s, e)
  {
    match e
    case Deliver(message, worker) => Hand(s, message, worker)
    case TryClaim(h, token, leaseLength, fault) => Claims(s, h, token, leaseLength, fault)
    case SkipCompleted(h) => Move(s, h, Acking)
    case EngineFails(h) => Move(s, h, Faulted(Some(s.handlers[h].phase.token)))
    case EngineRejects(h) => Move(s, h, Condemned(Some(s.handlers[h].phase.token)))
    case TryCommit(h, payload, solved, fault) => Commits(s, h, payload, solved, fault)
    case StoreFailed(h, fault) => Fails(s, h, fault)
    case StoreDeadLettered(h, fault) => DeadLetters(s, h, fault)
    case Publish(h, confirm) => Publishes(s, h, confirm)
    case StoreRetrying(h, fault) => Marks(s, h, fault)
    case Finish(h) => Finishes(s, h)
    case Crash(h) => Drop(TakeBack(s, h), h)
    case Disconnect(h) => TakeBack(s, h)
    case Forget(worker, job) => s.(completed := s.completed - {(worker, job)})
    case DelayOver(message) => s.(messages := s.messages[message := s.messages[message].(place := Ready)])
    case Republish(job) => AddMessage(s, Message(job, 0, Ready))
    case Outside(step) => Happens(s, step)
  }
}
