/** What holds of the session client in every run: bounded sends, one refresh, private aborts, final logout. */
module SessionGuarantees {
  import opened Results
  import opened Sessions

  // ---- invariants ----

  predicate Backed(p: Page, r: Request) {
    r.renewal.Some? && r.renewal.value < |p.refreshes| && p.refreshes[r.renewal.value].phase == Settled(Some(true))
  }

  /** How often a request may have been sent, by where it stands. */
  predicate RequestOk(p: Page, r: Request) {
    && (r.renewal.Some? ==> Backed(p, r))
    && (match r.phase
        case First => r.sent == 1 && r.renewal.None?
        case Waiting(refresh) => r.sent == 1 && r.renewal.None? && (refresh.Some? ==> refresh.value < |p.refreshes|)
        case Woken(ok) => r.sent == 1 && (ok ==> r.renewal.Some?)
        case Second => r.sent == 2
        case Returning(status) => r.sent >= 1 && (status == UNAUTHORIZED || r.sent == 2 || r.renewal.None?)
        case Fulfilled(_) => r.sent >= 1
        case Rejected => true)
    && r.sent <= 2
    && (r.sent == 2 ==> r.renewal.Some? && Replayable(r.m, r.hasKey))
  }

  ghost predicate RequestsOk(p: Page) { forall i :: 0 <= i < |p.requests| ==> RequestOk(p, p.requests[i]) }

  /** The one refresh that is not settled, if any, is the current one. */
  ghost predicate OneRefresh(p: Page) {
    && (forall j :: 0 <= j < |p.refreshes| ==> (!p.refreshes[j].phase.Settled? <==> p.current == Some(j)))
    && (p.current.Some? ==> p.current.value < |p.refreshes|)
  }

  ghost predicate RegistryOk(p: Page) {
    && (forall i :: 0 <= i < |p.requests| ==> (OfRequest(i) in p.registered <==> p.requests[i].Active()))
    && (forall j :: 0 <= j < |p.refreshes| ==> (OfRefresh(j) in p.registered <==> p.refreshes[j].Active()))
    && (forall c <- p.registered :: match c case OfRequest(i) => i < |p.requests| case OfRefresh(j) => j < |p.refreshes|)
  }

  /** Refreshes are aborted by logout alone, and logout aborts everything under way. */
  ghost predicate AbortsOk(p: Page) {
    && (forall j :: 0 <= j < |p.refreshes| ==> p.refreshes[j].aborted ==> p.closed)
    && (p.closed ==> forall i :: 0 <= i < |p.requests| ==> p.requests[i].Active() ==> p.requests[i].aborted)
    && (p.closed ==> forall j :: 0 <= j < |p.refreshes| ==> p.refreshes[j].Active() ==> p.refreshes[j].aborted)
  }

  ghost predicate Inv(p: Page) { RequestsOk(p) && OneRefresh(p) && RegistryOk(p) && AbortsOk(p) }

  predicate About(e: Event, i: nat) {
    match e
    case Respond(k, _, _) => k == i
    case Wake(k) => k == i
    case Cancel(k) => k == i
    case Resume(k) => k == i
    case Finish(k) => k == i
    case CallerAborts(k) => k == i
    case _ => false
  }

  /** Settled refreshes stay as they are. */
  ghost predicate RefreshesGrow(p: Page, q: Page) {
    && |p.refreshes| <= |q.refreshes|
    && forall j :: 0 <= j < |p.refreshes| && p.refreshes[j].phase.Settled? ==> q.refreshes[j].phase == p.refreshes[j].phase
  }

  lemma NextGrows(p: Page, e: Event)
    requires Can(p, e)
    ensures RefreshesGrow(p, Next(p, e))
    ensures |p.requests| <= |Next(p, e).requests|
  {
  }

  lemma StillOk(p: Page, q: Page, r: Request, aborted: bool)
    requires RequestOk(p, r) && RefreshesGrow(p, q)
    ensures RequestOk(q, r.(aborted := aborted)) && RequestOk(q, r)
  {
  }

  lemma OwnStepStaysOk(p: Page, e: Event, i: nat)
    requires Can(p, e) && i < |p.requests| && About(e, i) && RequestOk(p, p.requests[i]) && OneRefresh(p)
    ensures RequestOk(Next(p, e), Next(p, e).requests[i])
  {
    NextGrows(p, e);
  }

  lemma OthersOnlyAborted(p: Page, e: Event, i: nat)
    requires Can(p, e) && i < |p.requests| && !About(e, i)
    ensures var r := Next(p, e).requests[i]; r == p.requests[i].(aborted := r.aborted)
  {
  }

  lemma RequestsStayOk(p: Page, e: Event)
    requires Can(p, e) && RequestsOk(p) && OneRefresh(p)
    ensures RequestsOk(Next(p, e))
  {
    var q := Next(p, e);
    NextGrows(p, e);
    forall i | 0 <= i < |q.requests| ensures RequestOk(q, q.requests[i]) {
      if i < |p.requests| {
        assert RequestOk(p, p.requests[i]);
        if About(e, i) {
          OwnStepStaysOk(p, e, i);
        } else {
          OthersOnlyAborted(p, e, i);
          StillOk(p, q, p.requests[i], q.requests[i].aborted);
        }
      }
    }
  }

  lemma OneRefreshStays(p: Page, e: Event)
    requires Can(p, e) && OneRefresh(p)
    ensures OneRefresh(Next(p, e))
  {
  }

  lemma RequestStepKeepsRegistry(p: Page, e: Event, i: nat)
    requires Can(p, e) && RegistryOk(p) && i < |p.requests| && About(e, i)
    ensures RegistryOk(Next(p, e))
  {
  }

  lemma BeginKeepsRegistry(p: Page, e: Event)
    requires e.Begin? && RegistryOk(p)
    ensures RegistryOk(Next(p, e))
  {
  }

  lemma LogoutKeepsRegistry(p: Page)
    requires RegistryOk(p)
    ensures RegistryOk(Next(p, Logout))
  {
  }

  lemma PutRefreshKeepsRegistry(p: Page, j: nat, phase: RefreshPhase)
    requires RegistryOk(p) && j < |p.refreshes|
    requires phase.Asking? || phase.Answered? ==> p.refreshes[j].Active()
    ensures RegistryOk(PutRefresh(p, j, phase))
  {
  }

  lemma RegistryStaysOk(p: Page, e: Event)
    requires Can(p, e) && RegistryOk(p)
    ensures RegistryOk(Next(p, e))
  {
    match e {
      case Begin(_, _, _) => BeginKeepsRegistry(p, e);
      case Logout => LogoutKeepsRegistry(p);
      case RefreshResponds(j, reply) =>
        PutRefreshKeepsRegistry(p, j, match reply case None => Finished(None) case Some(ok) => Answered(ok));
      case RefreshChecks(j) =>
        PutRefreshKeepsRegistry(p, j, Finished(if p.closed || p.refreshes[j].aborted then None else Some(p.refreshes[j].phase.ok)));
      case RefreshClears(j) => PutRefreshKeepsRegistry(p, j, Settled(p.refreshes[j].phase.reply));
      case Respond(i, _, _) => RequestStepKeepsRegistry(p, e, i);
      case Wake(i) => RequestStepKeepsRegistry(p, e, i);
      case Cancel(i) => RequestStepKeepsRegistry(p, e, i);
      case Resume(i) => RequestStepKeepsRegistry(p, e, i);
      case Finish(i) => RequestStepKeepsRegistry(p, e, i);
      case CallerAborts(i) => RequestStepKeepsRegistry(p, e, i);
    }
  }

  lemma AbortsStayOk(p: Page, e: Event)
    requires Can(p, e) && AbortsOk(p) && RegistryOk(p)
    ensures AbortsOk(Next(p, e))
  {
  }

  lemma {:induction false} RunKeepsInv(p: Page, run: seq<Event>)
    requires CanAll(p, run) && Inv(p)
    ensures Inv(NextAll(p, run))
    decreases |run|
  {
    if run != [] {
      RequestsStayOk(p, run[0]);
      OneRefreshStays(p, run[0]);
      RegistryStaysOk(p, run[0]);
      AbortsStayOk(p, run[0]);
      RunKeepsInv(Next(p, run[0]), run[1..]);
    }
  }

  /** In every run at most one refresh is unsettled. */
  lemma AtMostOneRefresh(run: seq<Event>)
    requires CanAll(FRESH_PAGE, run)
    ensures var p := NextAll(FRESH_PAGE, run);
            forall j, k :: 0 <= j < |p.refreshes| && 0 <= k < |p.refreshes| && j != k ==>
                             p.refreshes[j].phase.Settled? || p.refreshes[k].phase.Settled?
  {
    RunKeepsInv(FRESH_PAGE, run);
  }

  /**
   In every run a request is sent at most twice, a second time only after a refresh that succeeded, and at
   most once when its method is unsafe and it carries no idempotency key.
   */
  lemma SendsAreBounded(run: seq<Event>, i: nat)
    requires CanAll(FRESH_PAGE, run) && i < |NextAll(FRESH_PAGE, run).requests|
    ensures var p := NextAll(FRESH_PAGE, run);
            var r := p.requests[i];
            && r.sent <= 2
            && (!r.m.Get? && !r.hasKey ==> r.sent <= 1)
            && (r.sent == 2 ==> Backed(p, r))
            && (r.phase.Fulfilled? ==> r.sent >= 1)
  {
    RunKeepsInv(FRESH_PAGE, run);
  }

  // ---- aborts are private ----

  /** Nothing but request `i` differs: its record, and whether its controller is still registered. */
  ghost predicate SameBut(p: Page, q: Page, i: nat) {
    && p.closed == q.closed && p.current == q.current && p.refreshes == q.refreshes
    && (forall c :: c != OfRequest(i) ==> (c in p.registered <==> c in q.registered))
    && |p.requests| == |q.requests|
    && forall k :: 0 <= k < |p.requests| && k != i ==> p.requests[k] == q.requests[k]
  }

  lemma OthersMayStep(p: Page, q: Page, i: nat, e: Event)
    requires SameBut(p, q, i) && i < |p.requests| && !About(e, i) && Can(p, e)
    ensures Can(q, e)
  {
  }

  lemma PutIgnoresOthers(p: Page, q: Page, i: nat, k: nat, r: Request)
    requires SameBut(p, q, i) && i < |p.requests| && k < |p.requests| && k != i
    ensures SameBut(WithRequest(p, k, r), WithRequest(q, k, r), i)
  {
  }

  lemma RequestStepIgnoresOthers(p: Page, q: Page, i: nat, k: nat, e: Event)
    requires SameBut(p, q, i) && i < |p.requests| && k < |p.requests| && k != i && About(e, k) && Can(p, e) && Can(q, e)
    ensures SameBut(Next(p, e), Next(q, e), i)
  {
    if e.Respond? && e.csrf && p.current.None? {
      Start(p, q, i);
      PutIgnoresOthers(Started(p), Started(q), i, k, Next(p, e).requests[k]);
    }
    PutIgnoresOthers(p, q, i, k, Next(p, e).requests[k]);
  }

  /** The page with one more refresh under way. */
  function Started(p: Page): Page {
    var j := |p.refreshes|;
    p.(refreshes := p.refreshes + [Refresh(Asking, false)], registered := p.registered + {OfRefresh(j)}, current := Some(j))
  }

  lemma Start(p: Page, q: Page, i: nat)
    requires SameBut(p, q, i)
    ensures SameBut(Started(p), Started(q), i)
  {
  }

  lemma PutRefreshIgnoresOthers(p: Page, q: Page, i: nat, j: nat, phase: RefreshPhase)
    requires SameBut(p, q, i) && j < |p.refreshes|
    ensures SameBut(PutRefresh(p, j, phase), PutRefresh(q, j, phase), i)
  {
  }

  lemma BeginIgnoresOthers(p: Page, q: Page, i: nat, e: Event)
    requires SameBut(p, q, i) && i < |p.requests| && e.Begin?
    ensures SameBut(Next(p, e), Next(q, e), i)
  {
  }

  lemma LogoutIgnoresOthers(p: Page, q: Page, i: nat)
    requires SameBut(p, q, i)
    ensures SameBut(LogsOut(p), LogsOut(q), i)
  {
  }

  lemma StepIgnoresOthers(p: Page, q: Page, i: nat, e: Event)
    requires SameBut(p, q, i) && i < |p.requests| && !About(e, i) && Can(p, e)
    ensures Can(q, e) && SameBut(Next(p, e), Next(q, e), i)
  {
    OthersMayStep(p, q, i, e);
    match e {
      case Begin(_, _, _) => BeginIgnoresOthers(p, q, i, e);
      case Respond(k, _, _) => RequestStepIgnoresOthers(p, q, i, k, e);
      case Wake(k) => RequestStepIgnoresOthers(p, q, i, k, e);
      case Cancel(k) => RequestStepIgnoresOthers(p, q, i, k, e);
      case Resume(k) => RequestStepIgnoresOthers(p, q, i, k, e);
      case Finish(k) => RequestStepIgnoresOthers(p, q, i, k, e);
      case CallerAborts(k) => RequestStepIgnoresOthers(p, q, i, k, e);
      case RefreshResponds(j, reply) =>
        PutRefreshIgnoresOthers(p, q, i, j, match reply case None => Finished(None) case Some(ok) => Answered(ok));
      case RefreshChecks(j) =>
        PutRefreshIgnoresOthers(p, q, i, j, Finished(if p.closed || p.refreshes[j].aborted then None else Some(p.refreshes[j].phase.ok)));
      case RefreshClears(j) => PutRefreshIgnoresOthers(p, q, i, j, Settled(p.refreshes[j].phase.reply));
      case Logout => LogoutIgnoresOthers(p, q, i);
    }
  }

  /** Whatever an aborted request does next touches nothing but itself; it stays aborted. */
  lemma AbortedStepIsPrivate(q: Page, i: nat, e: Event)
    requires i < |q.requests| && q.requests[i].aborted && About(e, i) && Can(q, e)
    ensures SameBut(q, Next(q, e), i) && Next(q, e).requests[i].aborted
  {
  }

  lemma StaysAborted(q: Page, i: nat, e: Event)
    requires i < |q.requests| && q.requests[i].aborted && Can(q, e)
    ensures i < |Next(q, e).requests| && Next(q, e).requests[i].aborted
  {
  }

  lemma SameButChains(p: Page, q: Page, r: Page, i: nat)
    requires SameBut(p, q, i) && SameBut(q, r, i)
    ensures SameBut(p, r, i) && SameBut(q, p, i)
  {
  }

  /** The run without the events of request `i`. */
  function Erased(run: seq<Event>, i: nat): seq<Event> {
    if run == [] then [] else (if About(run[0], i) then [] else [run[0]]) + Erased(run[1..], i)
  }

  /** The page where the request was aborted, under any run, keeps up with the page where it was not and stands still. */
  lemma {:induction false} AbortedRunIsPrivate(p: Page, q: Page, i: nat, run: seq<Event>)
    requires SameBut(p, q, i) && i < |p.requests| && q.requests[i].aborted && CanAll(q, run)
    ensures CanAll(p, Erased(run, i)) && SameBut(NextAll(p, Erased(run, i)), NextAll(q, run), i)
    decreases |run|
  {
    if run != [] {
      var e := run[0];
      StaysAborted(q, i, e);
      if About(e, i) {
        AbortedStepIsPrivate(q, i, e);
        SameButChains(p, q, Next(q, e), i);
        AbortedRunIsPrivate(p, Next(q, e), i, run[1..]);
        assert Erased(run, i) == Erased(run[1..], i);
      } else {
        SameButChains(p, q, q, i);
        StepIgnoresOthers(q, p, i, e);
        SameButChains(Next(q, e), Next(p, e), Next(p, e), i);
        AbortedRunIsPrivate(Next(p, e), Next(q, e), i, run[1..]);
        ErasedKeeps(run, i);
      }
    }
  }

  lemma ErasedKeeps(run: seq<Event>, i: nat)
    requires run != [] && !About(run[0], i)
    ensures Erased(run, i) != [] && Erased(run, i)[0] == run[0] && Erased(run, i)[1..] == Erased(run[1..], i)
  {
  }

  /**
   After one caller aborts, whatever then happens, to its own request and to others, everything but that
   request is as in the run where it did not abort and took no further step: the shared refresh, and
   every other waiter.
   */
  lemma AbortIsPrivate(p: Page, i: nat, run: seq<Event>)
    requires Can(p, CallerAborts(i)) && CanAll(Next(p, CallerAborts(i)), run)
    ensures CanAll(p, Erased(run, i))
    ensures SameBut(NextAll(p, Erased(run, i)), NextAll(Next(p, CallerAborts(i)), run), i)
  {
    AbortedRunIsPrivate(p, Next(p, CallerAborts(i)), i, run);
  }

  lemma {:induction false} OthersLoseNothing(p: Page, q: Page, i: nat, run: seq<Event>)
    requires SameBut(p, q, i) && i < |p.requests| && CanAll(p, run) && Erased(run, i) == run
    ensures CanAll(q, run) && SameBut(NextAll(p, run), NextAll(q, run), i)
    decreases |run|
  {
    if run != [] {
      ErasedIsShorter(run[1..], i);
      StepIgnoresOthers(p, q, i, run[0]);
      OthersLoseNothing(Next(p, run[0]), Next(q, run[0]), i, run[1..]);
    }
  }

  /** Every run that the others could take without the abort they can take after it. */
  lemma AbortCostsOthersNothing(p: Page, i: nat, run: seq<Event>)
    requires Can(p, CallerAborts(i)) && CanAll(p, run) && Erased(run, i) == run
    ensures CanAll(Next(p, CallerAborts(i)), run)
  {
    OthersLoseNothing(p, Next(p, CallerAborts(i)), i, run);
  }

  lemma {:induction false} ErasedIsShorter(run: seq<Event>, i: nat)
    ensures |Erased(run, i)| <= |run|
  {
    if run != [] {
      ErasedIsShorter(run[1..], i);
    }
  }

  // ---- waiters get the refresh ----

  /** The request waits for a refresh that has succeeded, and neither its caller nor logout has stopped it. */
  predicate MayRenew(p: Page, i: nat, j: nat) {
    && i < |p.requests| && p.requests[i].phase == Waiting(Some(j)) && p.requests[i].sent == 1 && !Stopped(p, i)
    && j < |p.refreshes| && p.refreshes[j].phase == Settled(Some(true))
  }

  lemma MayRenewStays(p: Page, e: Event, i: nat, j: nat)
    requires Can(p, e) && !About(e, i) && !e.Logout? && MayRenew(p, i, j)
    ensures MayRenew(Next(p, e), i, j)
    ensures Next(p, e).requests[i] == p.requests[i]
  {
  }

  lemma {:induction false} MayRenewLasts(p: Page, run: seq<Event>, i: nat, j: nat)
    requires CanAll(p, run) && MayRenew(p, i, j)
    requires forall e <- run :: !About(e, i) && !e.Logout?
    ensures MayRenew(NextAll(p, run), i, j) && NextAll(p, run).requests[i] == p.requests[i]
    decreases |run|
  {
    if run != [] {
      assert run[0] in run && forall e <- run[1..] :: e in run;
      MayRenewStays(p, run[0], i, j);
      MayRenewLasts(Next(p, run[0]), run[1..], i, j);
    }
  }

  lemma RenewsNow(p: Page, i: nat, j: nat)
    requires MayRenew(p, i, j)
    ensures Can(p, Wake(i)) && Can(Next(p, Wake(i)), Resume(i))
    ensures var r := Next(Next(p, Wake(i)), Resume(i)).requests[i];
            if r.m.Get? || r.hasKey then r.phase == Second && r.sent == 2
            else r.phase == Returning(UNAUTHORIZED) && r.sent == 1
  {
  }

  /**
   Once the refresh has succeeded, a waiter that is not aborted can take it up, however long other events
   go on before it does, short of logout; it is then sent again if it may be.
   */
  lemma WaitersGetTheRefresh(before: seq<Event>, between: seq<Event>, i: nat, j: nat)
    requires CanAll(FRESH_PAGE, before)
    requires var p := NextAll(FRESH_PAGE, before);
             && i < |p.requests| && p.requests[i].phase == Waiting(Some(j)) && !Stopped(p, i)
             && j < |p.refreshes| && p.refreshes[j].phase == Settled(Some(true))
             && CanAll(p, between)
    requires forall e <- between :: !About(e, i) && !e.Logout?
    ensures var q := NextAll(NextAll(FRESH_PAGE, before), between);
            && Can(q, Wake(i)) && Can(Next(q, Wake(i)), Resume(i))
            && var r := Next(Next(q, Wake(i)), Resume(i)).requests[i];
               if r.m.Get? || r.hasKey then r.phase == Second && r.sent == 2
               else r.phase == Returning(UNAUTHORIZED) && r.sent == 1
  {
    var p := NextAll(FRESH_PAGE, before);
    RunKeepsInv(FRESH_PAGE, before);
    assert RequestOk(p, p.requests[i]);
    MayRenewLasts(p, between, i, j);
    RenewsNow(NextAll(p, between), i, j);
  }

  // ---- logout is final ----

  /** What may still change after logout: requests are rejected; none is fulfilled or sent, and no refresh starts. */
  ghost predicate ShutOff(p: Page, q: Page) {
    && q.closed
    && |p.requests| <= |q.requests| && |p.refreshes| == |q.refreshes|
    && (forall i :: 0 <= i < |p.requests| ==> q.requests[i].sent == p.requests[i].sent)
    && (forall i :: 0 <= i < |p.requests| ==> (q.requests[i].phase.Fulfilled? ==> q.requests[i].phase == p.requests[i].phase))
    && (forall i :: 0 <= i < |p.requests| ==> (!p.requests[i].Active() ==> q.requests[i].phase == p.requests[i].phase))
    && (forall i :: |p.requests| <= i < |q.requests| ==> q.requests[i].sent == 0 && q.requests[i].phase == Rejected)
  }

  lemma ClosedStep(p: Page, e: Event)
    requires p.closed && Can(p, e)
    ensures ShutOff(p, Next(p, e))
  {
  }

  lemma {:induction false} ClosedRun(p: Page, run: seq<Event>)
    requires p.closed && CanAll(p, run)
    ensures ShutOff(p, NextAll(p, run))
    decreases |run|
  {
    if run != [] {
      ClosedStep(p, run[0]);
      ClosedRun(Next(p, run[0]), run[1..]);
    }
  }

  /** Logout aborts everything under way, and from then on no request is sent or fulfilled and no refresh starts. */
  lemma LogoutIsFinal(p: Page, run: seq<Event>)
    requires Inv(p) && CanAll(Next(p, Logout), run)
    ensures ShutOff(p, NextAll(Next(p, Logout), run))
    ensures forall i :: 0 <= i < |p.requests| && p.requests[i].Active() ==> Next(p, Logout).requests[i].aborted
    ensures forall j :: 0 <= j < |p.refreshes| && p.refreshes[j].Active() ==> Next(p, Logout).refreshes[j].aborted
  {
    ClosedRun(Next(p, Logout), run);
  }
}
