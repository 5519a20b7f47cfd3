/**
 What a caller gets from the session client, told by the answers that came: a first 401 and nothing else leads to
 the refresh, any other answer is what the caller gets, and a request fails only for a reason.
 */
module SessionAnswers {
  import opened Results
  import opened Sessions
  import opened SessionGuarantees

  // ---- runs, one event at a time ----

  lemma {:induction false} RunAndThen(p: Page, run: seq<Event>, e: Event)
    ensures CanAll(p, run + [e]) <==> CanAll(p, run) && Can(NextAll(p, run), e)
    ensures CanAll(p, run + [e]) ==> NextAll(p, run + [e]) == Next(NextAll(p, run), e)
    decreases |run|
  {
    if run == [] {
      assert [] + [e] == [e] && [e][1..] == [];
    } else {
      assert (run + [e])[0] == run[0] && (run + [e])[1..] == run[1..] + [e];
      if Can(p, run[0]) {
        RunAndThen(Next(p, run[0]), run[1..], e);
      }
    }
  }

  predicate GivesAnswer(e: Event, i: nat) { e.Respond? && e.i == i && e.answer.Some? }

  /** The statuses with which request `i` was answered, in order. */
  function Answers(run: seq<Event>, i: nat): seq<Status> {
    if run == [] then []
    else
      var n := |run| - 1;
      Answers(run[..n], i) + if GivesAnswer(run[n], i) then [run[n].answer.value] else []
  }

  lemma AnswersAndThen(run: seq<Event>, e: Event, i: nat)
    ensures Answers(run + [e], i) == Answers(run, i) + if GivesAnswer(e, i) then [e.answer.value] else []
  {
    assert (run + [e])[..|run|] == run;
  }

  /** Answers that lead to a result: the last one counts, and a second one follows a 401. */
  predicate Ends(answers: seq<Status>, status: Status, sent: nat) {
    && 1 <= |answers| <= 2 && sent == |answers|
    && status == answers[|answers| - 1]
    && (|answers| == 2 ==> answers[0] == 401)
  }

  /** Where a request stands says which answers it has had. */
  predicate Told(r: Request, answers: seq<Status>) {
    match r.phase
    case First => answers == [] && r.sent == 1
    case Waiting(_) => answers == [401] && r.sent == 1
    case Woken(_) => answers == [401] && r.sent == 1
    case Second => answers == [401] && r.sent == 2
    case Returning(status) => Ends(answers, status, r.sent)
    case Fulfilled(status) => Ends(answers, status, r.sent)
    case Rejected => true
  }

  ghost predicate AllTold(p: Page, run: seq<Event>) {
    && (forall i: nat :: i < |p.requests| ==> Told(p.requests[i], Answers(run, i)))
    && (forall i: nat :: |p.requests| <= i ==> Answers(run, i) == [])
  }

  lemma OwnStepTold(p: Page, e: Event, i: nat, answers: seq<Status>)
    requires Can(p, e) && i < |p.requests| && About(e, i) && Told(p.requests[i], answers)
    ensures Told(Next(p, e).requests[i], answers + if GivesAnswer(e, i) then [e.answer.value] else [])
  {
  }

  lemma StepTold(p: Page, run: seq<Event>, e: Event)
    requires Can(p, e) && AllTold(p, run)
    ensures AllTold(Next(p, e), run + [e])
  {
    var q := Next(p, e);
    NextGrows(p, e);
    forall i: nat ensures if i < |q.requests| then Told(q.requests[i], Answers(run + [e], i)) else Answers(run + [e], i) == [] {
      AnswersAndThen(run, e, i);
      if i < |p.requests| {
        if About(e, i) {
          OwnStepTold(p, e, i, Answers(run, i));
        } else {
          OthersOnlyAborted(p, e, i);
        }
      }
    }
  }

  lemma {:induction false} RunTold(run: seq<Event>)
    requires CanAll(FRESH_PAGE, run)
    ensures AllTold(NextAll(FRESH_PAGE, run), run)
    decreases |run|
  {
    if run != [] {
      var n := |run| - 1;
      assert run == run[..n] + [run[n]];
      RunAndThen(FRESH_PAGE, run[..n], run[n]);
      RunTold(run[..n]);
      StepTold(NextAll(FRESH_PAGE, run[..n]), run[..n], run[n]);
    }
  }

  /**
   In every run a request is fulfilled with exactly its last answer. It had one answer for each time it was sent:
   one only, unless the first was a 401.
   */
  lemma FulfilledWithTheLastAnswer(run: seq<Event>, i: nat)
    requires CanAll(FRESH_PAGE, run) && i < |NextAll(FRESH_PAGE, run).requests|
    requires NextAll(FRESH_PAGE, run).requests[i].phase.Fulfilled?
    ensures var r := NextAll(FRESH_PAGE, run).requests[i];
            var answers := Answers(run, i);
            && |answers| > 0 && r.phase.final == answers[|answers| - 1]
            && r.sent == |answers|
            && (if answers[0] == 401 then r.sent <= 2 else r.sent == 1)
  {
    RunTold(run);
  }

  // ---- the first 401 leads to the refresh, and nothing else does ----

  /** Neither logout nor the caller has stopped the request. */
  predicate GoesOn(p: Page, i: nat) { i < |p.requests| && !p.closed && !p.requests[i].aborted }

  /** The event answers a request that goes on with 401, and it is the request's first answer. */
  predicate First401(p: Page, run: seq<Event>, e: Event, i: nat) {
    e.Respond? && e.i == i && e.answer == Some(401) && Answers(run, i) == [] && GoesOn(p, i)
  }

  lemma FirstAnswerIsFirst(p: Page, run: seq<Event>, e: Event)
    requires e.Respond? && Can(p, e) && AllTold(p, run)
    ensures p.requests[e.i].phase.First? <==> Answers(run, e.i) == []
  {
    assert Told(p.requests[e.i], Answers(run, e.i));
  }

  /** After any run, a refresh starts exactly at a first 401 with a CSRF cookie while every earlier refresh is settled. */
  lemma RefreshStartsExactly(run: seq<Event>, e: Event)
    requires CanAll(FRESH_PAGE, run + [e])
    ensures CanAll(FRESH_PAGE, run)
    ensures var p, q := NextAll(FRESH_PAGE, run), NextAll(FRESH_PAGE, run + [e]);
            && |p.refreshes| <= |q.refreshes| <= |p.refreshes| + 1
            && (|q.refreshes| == |p.refreshes| + 1 <==>
                  && e.Respond? && First401(p, run, e, e.i) && e.csrf
                  && forall j :: 0 <= j < |p.refreshes| ==> p.refreshes[j].phase.Settled?)
  {
    RunAndThen(FRESH_PAGE, run, e);
    RunTold(run);
    RunKeepsInv(FRESH_PAGE, run);
    var p := NextAll(FRESH_PAGE, run);
    if e.Respond? {
      FirstAnswerIsFirst(p, run, e);
    }
    CurrentIsUnsettled(p);
    StartsWhen(p, e);
  }

  lemma CurrentIsUnsettled(p: Page)
    requires OneRefresh(p)
    ensures p.current.None? <==> forall j :: 0 <= j < |p.refreshes| ==> p.refreshes[j].phase.Settled?
  {
    assert p.current.Some? ==> !p.refreshes[p.current.value].phase.Settled?;
  }

  lemma StartsWhen(p: Page, e: Event)
    requires Can(p, e)
    ensures |Next(p, e).refreshes|
            == |p.refreshes| + if e.Respond? && p.requests[e.i].phase.First? && GoesOn(p, e.i) && e.answer == Some(401) && e.csrf
                                  && p.current.None? then 1 else 0
  {
  }

  /** Request `i` waits: for the refresh numbered here, or for none. */
  predicate WaitsFor(p: Page, i: nat, refresh: Option<nat>) {
    i < |p.requests| && p.requests[i].phase == Waiting(refresh)
  }

  lemma WaitsWhen(p: Page, e: Event, i: nat)
    requires Can(p, e) && !(i < |p.requests| && p.requests[i].phase.Waiting?)
    ensures i < |Next(p, e).requests| && Next(p, e).requests[i].phase.Waiting? <==>
              e.Respond? && e.i == i && p.requests[i].phase.First? && GoesOn(p, i) && e.answer == Some(401)
  {
  }

  lemma WaitsForCurrent(p: Page, e: Event, i: nat)
    requires Can(p, e) && !(i < |p.requests| && p.requests[i].phase.Waiting?) && OneRefresh(p)
    requires i < |Next(p, e).requests| && Next(p, e).requests[i].phase.Waiting? && e.Respond? && e.i == i
    ensures if e.csrf then Next(p, e).current.Some? && WaitsFor(Next(p, e), i, Next(p, e).current) else WaitsFor(Next(p, e), i, None)
  {
  }

  /**
   After any run, a request comes to wait exactly at its first answer, when that is a 401 and nothing has stopped it.
   With a CSRF cookie it waits for the one refresh that is not settled.
   */
  lemma ComesToWaitExactly(run: seq<Event>, e: Event, i: nat)
    requires CanAll(FRESH_PAGE, run + [e]) && CanAll(FRESH_PAGE, run)
    requires forall refresh :: !WaitsFor(NextAll(FRESH_PAGE, run), i, refresh)
    ensures var p, q := NextAll(FRESH_PAGE, run), NextAll(FRESH_PAGE, run + [e]);
            && ((exists refresh :: WaitsFor(q, i, refresh)) <==> First401(p, run, e, i))
            && (First401(p, run, e, i) && !e.csrf ==> WaitsFor(q, i, None))
            && (First401(p, run, e, i) && e.csrf ==>
                  exists j: nat :: WaitsFor(q, i, Some(j)) && j < |q.refreshes|
                                   && forall k :: 0 <= k < |q.refreshes| ==> (q.refreshes[k].phase.Settled? <==> k != j))
  {
    var p := NextAll(FRESH_PAGE, run);
    RunAndThen(FRESH_PAGE, run, e);
    RunTold(run);
    RunKeepsInv(FRESH_PAGE, run);
    if e.Respond? {
      FirstAnswerIsFirst(p, run, e);
    }
    if i < |p.requests| && p.requests[i].phase.Waiting? {
      assert WaitsFor(p, i, p.requests[i].phase.refresh);
    }
    WaitsWhen(p, e, i);
    if First401(p, run, e, i) {
      WaitsForCurrent(p, e, i);
      OneRefreshStays(p, e);
    }
  }

  // ---- every other answer is what the caller gets ----

  /** The request has this answer to give, and nothing has stopped it. */
  predicate HasAnswer(p: Page, i: nat, status: Status) {
    GoesOn(p, i) && p.requests[i].phase == Returning(status)
  }

  lemma {:induction false} AnswerLasts(p: Page, run: seq<Event>, i: nat, status: Status)
    requires CanAll(p, run) && HasAnswer(p, i, status) && forall e <- run :: !About(e, i) && !e.Logout?
    ensures HasAnswer(NextAll(p, run), i, status)
    decreases |run|
  {
    if run != [] {
      assert run[0] in run && forall e <- run[1..] :: e in run;
      AnswerStays(p, run[0], i, status);
      AnswerLasts(Next(p, run[0]), run[1..], i, status);
    }
  }

  lemma AnswerStays(p: Page, e: Event, i: nat, status: Status)
    requires Can(p, e) && HasAnswer(p, i, status) && !About(e, i) && !e.Logout?
    ensures HasAnswer(Next(p, e), i, status)
  {
  }

  /**
   An answer other than a first 401, to a request nothing has stopped, is the result: however long other events go
   on, short of logout, the request can finish, and then it is fulfilled with that status.
   */
  lemma OtherAnswersAreResults(run: seq<Event>, i: nat, status: Status, csrf: bool, between: seq<Event>)
    requires CanAll(FRESH_PAGE, run) && Can(NextAll(FRESH_PAGE, run), Respond(i, Some(status), csrf))
    requires GoesOn(NextAll(FRESH_PAGE, run), i)
    requires status != 401 || Answers(run, i) != []
    requires CanAll(Next(NextAll(FRESH_PAGE, run), Respond(i, Some(status), csrf)), between)
    requires forall e <- between :: !About(e, i) && !e.Logout?
    ensures var q := NextAll(Next(NextAll(FRESH_PAGE, run), Respond(i, Some(status), csrf)), between);
            Can(q, Finish(i)) && Next(q, Finish(i)).requests[i].phase == Fulfilled(status)
  {
    var p := NextAll(FRESH_PAGE, run);
    RunTold(run);
    FirstAnswerIsFirst(p, run, Respond(i, Some(status), csrf));
    AnswerLasts(Next(p, Respond(i, Some(status), csrf)), between, i, status);
  }

  // ---- what the refresh tells its waiters ----

  /** The refresh has the result that the endpoint gave it; it has none only if the endpoint failed or the user logged out. */
  predicate Earned(run: seq<Event>, j: nat, result: Reply) {
    RefreshResponds(j, result) in run || (result.None? && Logout in run)
  }

  predicate RefreshTold(run: seq<Event>, j: nat, phase: RefreshPhase) {
    match phase
    case Asking => true
    case Answered(ok) => RefreshResponds(j, Some(ok)) in run
    case Finished(reply) => Earned(run, j, reply)
    case Settled(result) => Earned(run, j, result)
  }

  ghost predicate RefreshesTold(p: Page, run: seq<Event>) {
    && (p.closed ==> Logout in run)
    && forall j: nat :: j < |p.refreshes| ==> RefreshTold(run, j, p.refreshes[j].phase)
  }

  lemma StepRefreshesTold(p: Page, run: seq<Event>, e: Event)
    requires Can(p, e) && RefreshesTold(p, run) && AbortsOk(p)
    ensures RefreshesTold(Next(p, e), run + [e])
  {
    var q := Next(p, e);
    assert forall f <- run :: f in run + [e];
    assert e in run + [e];
    forall j: nat | j < |q.refreshes| ensures RefreshTold(run + [e], j, q.refreshes[j].phase) {
      if j < |p.refreshes| {
        assert RefreshTold(run, j, p.refreshes[j].phase);
      }
    }
  }

  lemma {:induction false} RunRefreshesTold(run: seq<Event>)
    requires CanAll(FRESH_PAGE, run)
    ensures RefreshesTold(NextAll(FRESH_PAGE, run), run)
    decreases |run|
  {
    if run != [] {
      var n := |run| - 1;
      assert run == run[..n] + [run[n]];
      RunAndThen(FRESH_PAGE, run[..n], run[n]);
      RunRefreshesTold(run[..n]);
      RunKeepsInv(FRESH_PAGE, run[..n]);
      StepRefreshesTold(NextAll(FRESH_PAGE, run[..n]), run[..n], run[n]);
    }
  }

  /**
   A settled refresh tells its waiters what its endpoint answered. A waiter that nothing has stopped takes it up:
   after a success it is sent again if it is a GET or carries a key; otherwise it gets its 401; and a refresh
   without an answer fails it.
   */
  lemma WaitersLearnTheAnswer(run: seq<Event>, i: nat, j: nat)
    requires CanAll(FRESH_PAGE, run)
    requires var p := NextAll(FRESH_PAGE, run);
             WaitsFor(p, i, Some(j)) && GoesOn(p, i) && j < |p.refreshes| && p.refreshes[j].phase.Settled?
    ensures var p := NextAll(FRESH_PAGE, run);
            var result := p.refreshes[j].phase.result;
            var woken := Next(p, Wake(i));
            && (RefreshResponds(j, result) in run || (result.None? && Logout in run))
            && Can(p, Wake(i))
            && (if result.None? then woken.requests[i].phase == Rejected
                else Can(woken, Resume(i))
                     && var r := Next(woken, Resume(i)).requests[i];
                        if result.value && (r.m.Get? || r.hasKey)
                        then r.sent == 2 && forall answer, csrf :: Can(Next(woken, Resume(i)), Respond(i, answer, csrf))
                        else r.phase == Returning(401) && r.sent == 1)
  {
    RunRefreshesTold(run);
    RunKeepsInv(FRESH_PAGE, run);
    RunTold(run);
    var p := NextAll(FRESH_PAGE, run);
    assert RefreshTold(run, j, p.refreshes[j].phase);
    assert Told(p.requests[i], Answers(run, i));
  }

  /** Without a CSRF cookie no refresh is asked for, and the caller gets the 401. */
  lemma NoCookieNoRefresh(p: Page, i: nat)
    requires WaitsFor(p, i, None) && GoesOn(p, i)
    ensures Can(p, Wake(i)) && Can(Next(p, Wake(i)), Resume(i))
    ensures Next(Next(p, Wake(i)), Resume(i)).requests[i] == p.requests[i].(phase := Returning(401))
  {
  }

  // ---- a request fails only for a reason ----

  /** Why a request may be rejected: its own failure, its caller, logout, or a refresh that got no answer. */
  ghost predicate Excused(run: seq<Event>, r: Request, i: nat) {
    r.aborted || Logout in run || (exists csrf :: Respond(i, None, csrf) in run) || exists j :: RefreshResponds(j, None) in run
  }

  ghost predicate AllExcused(p: Page, run: seq<Event>) {
    forall i: nat :: i < |p.requests| && p.requests[i].phase.Rejected? ==> Excused(run, p.requests[i], i)
  }

  lemma ExcusedStays(run: seq<Event>, e: Event, r: Request, q: Request, i: nat)
    requires Excused(run, r, i) && (r.aborted ==> q.aborted)
    ensures Excused(run + [e], q, i)
  {
    assert forall f <- run :: f in run + [e];
    if exists csrf :: Respond(i, None, csrf) in run {
      var csrf :| Respond(i, None, csrf) in run;
      assert Respond(i, None, csrf) in run + [e];
    } else if exists j :: RefreshResponds(j, None) in run {
      var j :| RefreshResponds(j, None) in run;
      assert RefreshResponds(j, None) in run + [e];
    }
  }

  /** The step that rejects a request, and what it finds. */
  lemma RejectedWhen(p: Page, e: Event, i: nat)
    requires Can(p, e) && i < |Next(p, e).requests| && Next(p, e).requests[i].phase.Rejected?
    requires i < |p.requests| ==> !p.requests[i].phase.Rejected?
    ensures || p.closed || Next(p, e).requests[i].aborted
            || (e.Respond? && e.i == i && e.answer.None?)
            || (e == Wake(i) && p.requests[i].phase.refresh.Some?
                && p.refreshes[p.requests[i].phase.refresh.value].phase == Settled(None))
  {
  }

  lemma StepExcused(p: Page, run: seq<Event>, e: Event)
    requires Can(p, e) && AllExcused(p, run) && RefreshesTold(p, run)
    ensures AllExcused(Next(p, e), run + [e])
  {
    var q := Next(p, e);
    assert forall f <- run :: f in run + [e];
    assert (run + [e])[|run|] == e;
    forall i: nat | i < |q.requests| && q.requests[i].phase.Rejected? ensures Excused(run + [e], q.requests[i], i) {
      if i < |p.requests| && p.requests[i].phase.Rejected? {
        StaysRejected(p, e, i);
        ExcusedStays(run, e, p.requests[i], q.requests[i], i);
      } else {
        RejectedWhen(p, e, i);
        if e.Respond? && e.i == i && e.answer.None? {
          assert Respond(i, None, e.csrf) in run + [e];
        } else if e == Wake(i) && p.requests[i].phase.refresh.Some? {
          assert RefreshTold(run, p.requests[i].phase.refresh.value, p.refreshes[p.requests[i].phase.refresh.value].phase);
        }
      }
    }
  }

  lemma StaysRejected(p: Page, e: Event, i: nat)
    requires Can(p, e) && i < |p.requests| && p.requests[i].phase.Rejected?
    ensures p.requests[i].aborted ==> Next(p, e).requests[i].aborted
  {
  }

  lemma {:induction false} RunExcused(run: seq<Event>)
    requires CanAll(FRESH_PAGE, run)
    ensures AllExcused(NextAll(FRESH_PAGE, run), run)
    decreases |run|
  {
    if run != [] {
      var n := |run| - 1;
      assert run == run[..n] + [run[n]];
      RunAndThen(FRESH_PAGE, run[..n], run[n]);
      RunExcused(run[..n]);
      RunRefreshesTold(run[..n]);
      StepExcused(NextAll(FRESH_PAGE, run[..n]), run[..n], run[n]);
    }
  }

  /**
   In every run a request is rejected only if its caller or logout aborted it, its own fetch failed, or a refresh
   got no answer; never for the status of an answer.
   */
  lemma RejectedHasCause(run: seq<Event>, i: nat)
    requires CanAll(FRESH_PAGE, run) && i < |NextAll(FRESH_PAGE, run).requests|
    requires NextAll(FRESH_PAGE, run).requests[i].phase.Rejected?
    ensures || NextAll(FRESH_PAGE, run).requests[i].aborted || Logout in run
            || (exists csrf :: Respond(i, None, csrf) in run)
            || exists j :: RefreshResponds(j, None) in run
  {
    RunExcused(run);
  }

  // ---- beginnings and aborts ----

  lemma {:induction false} ClosedByLogout(p: Page, run: seq<Event>)
    requires CanAll(p, run)
    ensures NextAll(p, run).closed <==> p.closed || Logout in run
    decreases |run|
  {
    if run != [] {
      ClosedByLogout(Next(p, run[0]), run[1..]);
      assert run == [run[0]] + run[1..];
    }
  }

  /** A new request is sent at once and may be answered, unless the user has logged out or its caller has aborted it. */
  lemma BeginSendsExactly(run: seq<Event>, m: Method, hasKey: bool, callerAborted: bool, answer: Option<Status>, csrf: bool)
    requires CanAll(FRESH_PAGE, run)
    ensures var p := NextAll(FRESH_PAGE, run);
            var q := Next(p, Begin(m, hasKey, callerAborted));
            var i := |p.requests|;
            && |q.requests| == i + 1 && q.requests[i].m == m && q.requests[i].hasKey == hasKey
            && q.requests[i].sent == (if Logout in run || callerAborted then 0 else 1)
            && (Can(q, Respond(i, answer, csrf)) <==> Logout !in run && !callerAborted)
            && (GoesOn(q, i) <==> Logout !in run && !callerAborted)
  {
    ClosedByLogout(FRESH_PAGE, run);
  }

  lemma AbortedStep(p: Page, e: Event, i: nat)
    requires Can(p, e) && i < |p.requests| && p.requests[i].aborted && !p.requests[i].phase.Fulfilled?
    ensures Next(p, e).requests[i].aborted && !Next(p, e).requests[i].phase.Fulfilled?
    ensures Next(p, e).requests[i].sent == p.requests[i].sent
  {
  }

  /** Once its caller has aborted it, a request is neither sent again nor fulfilled. */
  lemma {:induction false} AbortedIsNeverFulfilled(p: Page, i: nat, run: seq<Event>)
    requires i < |p.requests| && p.requests[i].aborted && !p.requests[i].phase.Fulfilled? && CanAll(p, run)
    ensures i < |NextAll(p, run).requests|
    ensures var r := NextAll(p, run).requests[i]; !r.phase.Fulfilled? && r.sent == p.requests[i].sent
    decreases |run|
  {
    if run != [] {
      AbortedStep(p, run[0], i);
      NextGrows(p, run[0]);
      AbortedIsNeverFulfilled(Next(p, run[0]), i, run[1..]);
    }
  }

  /** An abort takes effect at once: a waiter can leave without its refresh. */
  lemma AbortFreesTheWaiter(p: Page, i: nat, refresh: Option<nat>)
    requires WaitsFor(p, i, refresh)
    ensures Can(p, CallerAborts(i))
    ensures var q := Next(p, CallerAborts(i));
            !GoesOn(q, i) && Can(q, Cancel(i)) && Next(q, Cancel(i)).requests[i].phase == Rejected
  {
  }

  /** A refresh that is not settled can always go on to the answer it gets, and from there to its end. */
  lemma RefreshesCanSettle(p: Page, j: nat, reply: Reply)
    requires j < |p.refreshes| && p.refreshes[j].phase.Asking?
    ensures Can(p, RefreshResponds(j, reply))
    ensures var q := Next(p, RefreshResponds(j, reply));
            var r := if reply.Some? then Next(q, RefreshChecks(j)) else q;
            && (reply.Some? ==> Can(q, RefreshChecks(j)))
            && Can(r, RefreshClears(j)) && Next(r, RefreshClears(j)).current == None
            && Next(r, RefreshClears(j)).refreshes[j].phase
               == Settled(if p.closed || p.refreshes[j].aborted then None else reply)
  {
  }
}
