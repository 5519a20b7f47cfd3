/**
 Why NeverStranded needs both of its assumptions: two concrete runs of one job
 with one message that keep one of them and end with the job unfinished and no
 message left.
 */
module StrandingExamples {
  import opened Results
  import opened Credits
  import opened Shifts
  import opened Jobs
  import History = JobHistory
  import opened Delivery
  import opened NoStranding

  const JOB := "j"

  const SCOPE := Scope("t", "s", "l")

  function Row(status: Status, token: Option<Token>, lease: Option<int>, retry: int): Job {
    Job(SCOPE, status, token, lease, Credits(1, 0), retry, None)
  }

  /** One paid tenant with one charged job; only the fields that the two runs move are parameters. */
  function At(row: Job, active: bool, now: int, nextToken: nat, nextId: nat,
              messages: map<nat, Message>, handlers: map<nat, Handler>): System
  {
    var ledger := map[DebitId(JOB) := LedgerRow("t", -1, 0, DebitReason(JOB), Some(0), 0)];
    var tenant := Tenant(active, true, true, Some(100), Wallet(0, 0));
    System(
      History.State(
        Db(now, map["t" := tenant], ledger, map[JOB := row], Plan(map[], map[], map[], map[], map[])),
        nextToken, map["t" := 1]),
      3, nextId, messages, handlers, {})
  }

  function First(place: Place): Message {
    Message(JOB, 0, place)
  }

  function Working(message: nat, retry: nat, phase: Phase): Handler {
    Handler(0, message, JOB, retry, phase)
  }

  lemma LedgerHasNoRefund(s: System)
    requires s.books.db.ledger.Keys == {DebitId(JOB)}
    ensures RefundId(JOB) !in s.books.db.ledger
  {
    IdsClashExactly(JOB, JOB);
    assert JOB != "refund-" + JOB by {
      assert |JOB| == 1;
    }
  }

  lemma OneJobStarts(s: System)
    requires s == At(Row(Queued, None, None, 0), true, 0, 0, 1, map[0 := First(Ready)], map[])
    ensures Start(s)
  {
    var db := s.books.db;
    LedgerHasNoRefund(s);
    History.SpentTakes(db.jobs, "t", JOB);
    assert db.jobs - {JOB} == map[];
    assert History.TenantOk(s.books, "t");
    assert s.messages[0].job == JOB;
    assert JOB != "refund-" + JOB by {
      assert |JOB| == 1;
    }
  }

  /** The job is unfinished and nothing will ever work on it again. */
  ghost predicate Stranded(s: System) {
    Unfinished(s, JOB) && s.messages == map[] && s.handlers == map[]
  }

  ghost predicate Takes(s: System, e: Event, t: System) {
    Can(s, e) && Next(s, e) == t
  }

  lemma Claiming(s: System, h: nat, token: nat, t: System)
    requires s == At(Row(Queued, None, None, 0), true, s.books.db.now, s.books.nextToken, s.nextId, s.messages, s.handlers)
    requires s.books.db.now < 100 && s.books.nextToken <= token
    requires In(s, h) && s.handlers[h].phase.Received? && s.handlers[h].job == JOB
    requires t == At(Row(Running, Some(token), Some(s.books.db.now + 10), s.handlers[h].retry), true, s.books.db.now, token + 1,
                     s.nextId, s.messages, s.handlers[h := s.handlers[h].(phase := Executing(token))])
    ensures Takes(s, TryClaim(h, token, 10, Clean), t)
  {
    LedgerHasNoRefund(s);
    assert Provenance(s.books.db, JOB);
  }

  /** Storing FAILED without the right to the job drops the message and changes no books. */
  lemma Refused(s: System, row: Job, active: bool, h: nat, held: Option<Token>)
    requires s == At(row, active, s.books.db.now, s.books.nextToken, s.nextId, s.messages, s.handlers)
    requires row == Row(row.status, row.token, row.lease, row.retryCount)
    requires !Terminal(row.status) && !MayMutate(row, held, s.books.db.now)
    requires In(s, h) && s.handlers[h].phase == Condemned(held) && s.handlers[h].job == JOB
    ensures Takes(s, StoreFailed(h, Clean), Move(s, h, Acking))
  {
    LedgerHasNoRefund(s);
    assert Provenance(s.books.db, JOB);
    assert RefundOf(s, h, Failed, s.handlers[h].retry, held) == (s.books.db, OwnershipLost);
  }

  /** A retry mark without a token goes through once the lease has run out. */
  lemma Marking(s: System, h: nat, token: nat, lease: int)
    requires s == At(Row(Running, Some(token), Some(lease), 1), true, s.books.db.now, s.books.nextToken, s.nextId, s.messages, s.handlers)
    requires lease <= s.books.db.now
    requires In(s, h) && s.handlers[h].phase == Replaced(None) && s.handlers[h].job == JOB && s.handlers[h].retry == 0
    ensures Takes(s, StoreRetrying(h, Clean),
                  At(Row(Retrying, None, None, 1), true, s.books.db.now, s.books.nextToken, s.nextId, s.messages,
                     s.handlers[h := s.handlers[h].(phase := Acking)]))
  {
  }

  // ---- run one: claim, crash, lapse, redeliver ----

  function Lapse(i: nat): System {
    var queued := Row(Queued, None, None, 0);
    var running := Row(Running, Some(0), Some(10), 0);
    match i
    case 0 => At(queued, true, 0, 0, 1, map[0 := First(Ready)], map[])
    case 1 => At(queued, true, 0, 0, 2, map[0 := First(InFlight(1))], map[1 := Working(0, 0, Received)])
    case 2 => At(running, true, 0, 1, 2, map[0 := First(InFlight(1))], map[1 := Working(0, 0, Executing(0))])
    case 3 => At(running, true, 0, 1, 2, map[0 := First(Ready)], map[])
    case 4 => At(running, false, 0, 1, 2, map[0 := First(Ready)], map[])
    case 5 => At(running, false, 0, 1, 3, map[0 := First(InFlight(2))], map[2 := Working(0, 0, Received)])
    case 6 => At(running, false, 0, 2, 3, map[0 := First(InFlight(2))], map[2 := Working(0, 0, Condemned(None))])
    case 7 => At(running, false, 0, 2, 3, map[0 := First(InFlight(2))], map[2 := Working(0, 0, Acking)])
    case _ => At(running, false, 0, 2, 3, map[], map[])
  }

  function LapseEvent(i: nat): Event {
    match i
    case 0 => Deliver(0, 0)
    case 1 => TryClaim(1, 0, 10, Clean)
    case 2 => Crash(1)
    case 3 => Outside(History.Subscription("t", false, true, true, Some(100)))
    case 4 => Deliver(0, 0)
    case 5 => TryClaim(2, 1, 10, Clean)
    case 6 => StoreFailed(2, Clean)
    case _ => Finish(2)
  }

  lemma LapseBrokerSteps(i: nat)
    requires i == 0 || i == 2 || i == 4 || i == 7
    ensures Takes(Lapse(i), LapseEvent(i), Lapse(i + 1))
  {
  }

  lemma LapseSubscriptionStep()
    ensures Takes(Lapse(3), LapseEvent(3), Lapse(4))
  {
  }

  /** A claim for a tenant whose subscription lapsed is refused and only uses up its token. */
  lemma UnpaidClaim(s: System, row: Job, h: nat, token: nat)
    requires s == At(row, false, s.books.db.now, s.books.nextToken, s.nextId, s.messages, s.handlers)
    requires row == Row(row.status, row.token, row.lease, row.retryCount) && !Terminal(row.status) && s.books.nextToken <= token
    requires In(s, h) && s.handlers[h].phase.Received? && s.handlers[h].job == JOB
    ensures Takes(s, TryClaim(h, token, 10, Clean),
                  At(row, false, s.books.db.now, token + 1, s.nextId, s.messages,
                     s.handlers[h := s.handlers[h].(phase := Condemned(None))]))
  {
    LedgerHasNoRefund(s);
  }

  lemma LapseSixth()
    ensures Lapse(6) == At(Row(Running, Some(0), Some(10), 0), false, 0, 2, 3, Lapse(5).messages,
                           Lapse(5).handlers[2 := Working(0, 0, Condemned(None))])
  {
  }

  lemma LapseSecondClaim()
    ensures Takes(Lapse(5), LapseEvent(5), Lapse(6))
  {
    UnpaidClaim(Lapse(5), Row(Running, Some(0), Some(10), 0), 2, 1);
    LapseSixth();
  }

  lemma LapseSteps(i: nat)
    requires i < 8
    ensures Takes(Lapse(i), LapseEvent(i), Lapse(i + 1))
  {
    if i == 1 {
      Claiming(Lapse(1), 1, 0, Lapse(2));
    } else if i == 3 {
      LapseSubscriptionStep();
    } else if i == 5 {
      LapseSecondClaim();
    } else if i == 6 {
      Refused(Lapse(6), Row(Running, Some(0), Some(10), 0), false, 2, None);
    } else {
      LapseBrokerSteps(i);
    }
  }

  lemma AloneOutlasts(s: System, h: nat)
    requires In(s, h) && s.handlers.Keys == {h}
    ensures LeasesOutlastOthers(s, h)
  {
  }

  lemma LapseLeasesLast(i: nat)
    requires i < 8 && Can(Lapse(i), LapseEvent(i))
    ensures LeasesOutlast(Lapse(i), LapseEvent(i))
  {
    if i == 1 {
      AloneOutlasts(Lapse(1), 1);
    } else if i == 5 {
      AloneOutlasts(Lapse(5), 2);
    } else {
      assert !LapseEvent(i).TryClaim? && !LapseEvent(i).StoreRetrying?;
    }
  }

  function LapseStates(): seq<System> { seq(9, i requires 0 <= i => Lapse(i)) }

  function LapseEvents(): seq<Event> { seq(8, i requires 0 <= i => LapseEvent(i)) }

  lemma LapseTakesStep(i: nat)
    requires i < 8
    ensures TakesStep(LapseStates(), LapseEvents(), i)
  {
    LapseSteps(i);
  }

  lemma LapseIsRun()
    ensures Run(LapseStates(), LapseEvents())
  {
    OneJobStarts(Lapse(0));
    forall i | 0 <= i < 8 ensures TakesStep(LapseStates(), LapseEvents(), i) {
      LapseTakesStep(i);
    }
  }

  lemma LapseEndsStranded()
    ensures Stranded(Lapse(8))
  {
  }

  lemma LapseStepLeases(i: nat)
    requires i < 8
    ensures Can(Lapse(i), LapseEvent(i)) && LeasesOutlast(Lapse(i), LapseEvent(i))
  {
    LapseSteps(i);
    LapseLeasesLast(i);
  }

  /**
   The assumption on refused claims is needed: the second claim is refused, its failure cannot be
   stored under the first claim's live lease, and the message is dropped. No handler ever outstays
   its lease in this run.
   */
  lemma LapseStrands()
    ensures Run(LapseStates(), LapseEvents()) && Stranded(LapseStates()[8])
    ensures forall i :: 0 <= i < 8 ==> Can(Lapse(i), LapseEvent(i)) && LeasesOutlast(Lapse(i), LapseEvent(i))
  {
    LapseIsRun();
    LapseEndsStranded();
    forall i | 0 <= i < 8 ensures Can(Lapse(i), LapseEvent(i)) && LeasesOutlast(Lapse(i), LapseEvent(i)) {
      LapseStepLeases(i);
    }
  }

  // ---- run two: a stalled retry mark and an overrun lease ----

  function Overrun(i: nat): System {
    var queued := Row(Queued, None, None, 0);
    var running := Row(Running, Some(1), Some(10), 1);
    var retrying := Row(Retrying, None, None, 1);
    var m1 := First(InFlight(1));
    var copy := Message(JOB, 1, Delayed(1));
    var m2 := copy.(place := InFlight(3));
    match i
    case 0 => At(queued, true, 0, 0, 1, map[0 := First(Ready)], map[])
    case 1 => At(queued, true, 0, 0, 2, map[0 := m1], map[1 := Working(0, 0, Received)])
    case 2 => At(queued, true, 0, 1, 2, map[0 := m1], map[1 := Working(0, 0, Faulted(None))])
    case 3 => At(queued, true, 0, 1, 3, map[0 := m1, 2 := copy], map[1 := Working(0, 0, Replaced(None))])
    case 4 => At(queued, true, 0, 1, 3, map[0 := m1, 2 := copy.(place := Ready)], map[1 := Working(0, 0, Replaced(None))])
    case 5 => At(queued, true, 0, 1, 4, map[0 := m1, 2 := m2], map[1 := Working(0, 0, Replaced(None)), 3 := Working(2, 1, Received)])
    case 6 => At(running, true, 0, 2, 4, map[0 := m1, 2 := m2], map[1 := Working(0, 0, Replaced(None)), 3 := Working(2, 1, Executing(1))])
    case 7 => At(running, true, 20, 2, 4, map[0 := m1, 2 := m2], map[1 := Working(0, 0, Replaced(None)), 3 := Working(2, 1, Executing(1))])
    case 8 => At(retrying, true, 20, 2, 4, map[0 := m1, 2 := m2], map[1 := Working(0, 0, Acking), 3 := Working(2, 1, Executing(1))])
    case 9 => At(retrying, true, 20, 2, 4, map[2 := m2], map[3 := Working(2, 1, Executing(1))])
    case 10 => At(retrying, true, 20, 2, 4, map[2 := m2], map[3 := Working(2, 1, Condemned(Some(1)))])
    case 11 => At(retrying, true, 20, 2, 4, map[2 := m2], map[3 := Working(2, 1, Acking)])
    case _ => At(retrying, true, 20, 2, 4, map[], map[])
  }

  function OverrunEvent(i: nat): Event {
    match i
    case 0 => Deliver(0, 0)
    case 1 => TryClaim(1, 0, 10, RolledBack)
    case 2 => Publish(1, Confirmed)
    case 3 => DelayOver(2)
    case 4 => Deliver(2, 0)
    case 5 => TryClaim(3, 1, 10, Clean)
    case 6 => Outside(History.Tick(20))
    case 7 => StoreRetrying(1, Clean)
    case 8 => Finish(1)
    case 9 => EngineRejects(3)
    case 10 => StoreFailed(3, Clean)
    case _ => Finish(3)
  }

  lemma OverrunDeliveries(i: nat)
    requires i == 0 || i == 4
    ensures Takes(Overrun(i), OverrunEvent(i), Overrun(i + 1))
  {
  }

  lemma OverrunPublish(i: nat)
    requires i == 2 || i == 3
    ensures Takes(Overrun(i), OverrunEvent(i), Overrun(i + 1))
  {
  }

  lemma OverrunEndings(i: nat)
    requires i == 8 || i == 9 || i == 11
    ensures Takes(Overrun(i), OverrunEvent(i), Overrun(i + 1))
  {
  }

  lemma OverrunRolledBackClaim()
    ensures Takes(Overrun(1), OverrunEvent(1), Overrun(2))
  {
  }

  lemma OverrunTick()
    ensures Takes(Overrun(6), OverrunEvent(6), Overrun(7))
  {
  }

  lemma OverrunMark()
    ensures Takes(Overrun(7), OverrunEvent(7), Overrun(8))
  {
    Marking(Overrun(7), 1, 1, 10);
    OverrunEighth();
  }

  lemma OverrunEighth()
    ensures Overrun(8) == At(Row(Retrying, None, None, 1), true, 20, 2, 4, Overrun(7).messages,
                             Overrun(7).handlers[1 := Working(0, 0, Acking)])
  {
  }

  lemma OverrunFirstSteps(i: nat)
    requires i < 6
    ensures Takes(Overrun(i), OverrunEvent(i), Overrun(i + 1))
  {
    if i == 1 {
      OverrunRolledBackClaim();
    } else if i == 5 {
      Claiming(Overrun(5), 3, 1, Overrun(6));
    } else if i == 0 || i == 4 {
      OverrunDeliveries(i);
    } else {
      OverrunPublish(i);
    }
  }

  lemma OverrunLastSteps(i: nat)
    requires 6 <= i < 12
    ensures Takes(Overrun(i), OverrunEvent(i), Overrun(i + 1))
  {
    if i == 6 {
      OverrunTick();
    } else if i == 7 {
      OverrunMark();
    } else if i == 10 {
      Refused(Overrun(10), Row(Retrying, None, None, 1), true, 3, Some(1));
    } else {
      OverrunEndings(i);
    }
  }

  lemma OverrunSteps(i: nat)
    requires i < 12
    ensures Takes(Overrun(i), OverrunEvent(i), Overrun(i + 1))
  {
    if i < 6 { OverrunFirstSteps(i); } else { OverrunLastSteps(i); }
  }

  lemma OverrunRefusesNothing(i: nat)
    requires i < 12 && Can(Overrun(i), OverrunEvent(i))
    ensures RefusalsUnleased(Overrun(i), OverrunEvent(i))
  {
  }

  lemma OverrunStartsPaid(i: nat)
    requires i < 6
    ensures Paid(Overrun(i))
  {
  }

  lemma OverrunEndsPaid(i: nat)
    requires 6 <= i
    ensures Paid(Overrun(i))
  {
  }

  lemma OverrunStaysPaid(i: nat)
    ensures Paid(Overrun(i))
  {
    if i < 6 { OverrunStartsPaid(i); } else { OverrunEndsPaid(i); }
  }

  function OverrunStates(): seq<System> { seq(13, i requires 0 <= i => Overrun(i)) }

  function OverrunEvents(): seq<Event> { seq(12, i requires 0 <= i => OverrunEvent(i)) }

  lemma OverrunTakesStep(i: nat)
    requires i < 12
    ensures TakesStep(OverrunStates(), OverrunEvents(), i)
  {
    OverrunSteps(i);
  }

  lemma OverrunIsRun()
    ensures Run(OverrunStates(), OverrunEvents())
  {
    OneJobStarts(Overrun(0));
    forall i | 0 <= i < 12 ensures TakesStep(OverrunStates(), OverrunEvents(), i) {
      OverrunTakesStep(i);
    }
  }

  lemma OverrunEndsStranded()
    ensures Stranded(Overrun(12))
  {
  }

  lemma OverrunStepRefusesNothing(i: nat)
    requires i < 12
    ensures Can(Overrun(i), OverrunEvent(i)) && RefusalsUnleased(Overrun(i), OverrunEvent(i))
  {
    OverrunSteps(i);
    OverrunRefusesNothing(i);
  }

  /**
   Leases that outlast their handlers are needed: a retry mark without a token, delayed
   past the lease of the replacement's handler, takes that handler's claim away; both
   messages are then acknowledged. Every subscription stays paid in this run.
   */
  lemma OverrunStrands()
    ensures Run(OverrunStates(), OverrunEvents()) && Stranded(OverrunStates()[12])
    ensures forall i :: 0 <= i <= 12 ==> Paid(Overrun(i))
    ensures forall i :: 0 <= i < 12 ==> Can(Overrun(i), OverrunEvent(i)) && RefusalsUnleased(Overrun(i), OverrunEvent(i))
  {
    OverrunIsRun();
    OverrunEndsStranded();
    forall i | 0 <= i <= 12 ensures Paid(Overrun(i)) {
      OverrunStaysPaid(i);
    }
    forall i | 0 <= i < 12 ensures Can(Overrun(i), OverrunEvent(i)) && RefusalsUnleased(Overrun(i), OverrunEvent(i)) {
      OverrunStepRefusesNothing(i);
    }
  }
}
