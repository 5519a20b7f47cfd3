/**
 The browser's session client: requests that share one token refresh, can be aborted one
 by one, and are all shut off by logout. Every function here is one uninterrupted piece of
 the client's code; between two of them anything else may happen.
 */
module Sessions {
  import opened Results

  datatype Method = Get | Post | Put | Patch | Delete

  predicate Replayable(m: Method, hasKey: bool) { m.Get? || hasKey }

  type Status = nat

  const UNAUTHORIZED: Status := 401

  datatype Phase =
    | First                        // sent once, no response yet
    | Waiting(refresh: Option<nat>) // for a refresh, or for the 401 that stands in for one without a CSRF cookie
    | Woken(ok: bool)
    | Second                       // sent again
    | Returning(status: Status)    // has its response, before the final check
    | Fulfilled(final: Status)
    | Rejected

  datatype Request = Request(m: Method, hasKey: bool, phase: Phase, sent: nat, aborted: bool, renewal: Option<nat>)
  {
    predicate Active() { !phase.Fulfilled? && !phase.Rejected? }
  }

  /** `None` stands for a rejected promise, `Some(ok)` for a response. */
  type Reply = Option<bool>

  datatype RefreshPhase = Asking | Answered(ok: bool) | Finished(reply: Reply) | Settled(result: Reply)

  datatype Refresh = Refresh(phase: RefreshPhase, aborted: bool)
  {
    predicate Active() { phase.Asking? || phase.Answered? }
  }

  datatype Controller = OfRequest(i: nat) | OfRefresh(j: nat)

  datatype Page = Page(closed: bool, current: Option<nat>, registered: set<Controller>,
                       requests: seq<Request>, refreshes: seq<Refresh>)

  const FRESH_PAGE := Page(false, None, {}, [], [])

  datatype Event =
    | Begin(m: Method, hasKey: bool, callerAborted: bool)
    | Respond(i: nat, answer: Option<Status>, csrf: bool)
    | Wake(i: nat)
    | Cancel(i: nat)
    | Resume(i: nat)
    | Finish(i: nat)
    | CallerAborts(i: nat)
    | RefreshResponds(j: nat, reply: Reply)
    | RefreshChecks(j: nat)
    | RefreshClears(j: nat)
    | Logout

  predicate At(p: Page, i: nat) { i < |p.requests| && p.requests[i].Active() }

  /** The events that may come next. */
  predicate Can(p: Page, e: Event) {
    match e
    case Begin(_, _, _) => true
    case Respond(i, _, _) => At(p, i) && (p.requests[i].phase.First? || p.requests[i].phase.Second?)
    case Wake(i) =>
      && At(p, i) && p.requests[i].phase.Waiting?
      && (match p.requests[i].phase.refresh
          case None => true
          case Some(j) => j < |p.refreshes| && p.refreshes[j].phase.Settled?)
    case Cancel(i) => At(p, i) && p.requests[i].phase.Waiting? && p.requests[i].aborted
    case Resume(i) => At(p, i) && p.requests[i].phase.Woken?
    case Finish(i) => At(p, i) && p.requests[i].phase.Returning?
    case CallerAborts(i) => At(p, i)
    case RefreshResponds(j, _) => j < |p.refreshes| && p.refreshes[j].phase.Asking?
    case RefreshChecks(j) => j < |p.refreshes| && p.refreshes[j].phase.Answered?
    case RefreshClears(j) => j < |p.refreshes| && p.refreshes[j].phase.Finished?
    case Logout => true
  }

  predicate Stopped(p: Page, i: nat)
    requires i < |p.requests|
  {
    p.closed || p.requests[i].aborted
  }

  function WithRequest(p: Page, i: nat, r: Request): Page
    requires i < |p.requests|
  {
    p.(requests := p.requests[i := r],
       registered := if r.Active() then p.registered else p.registered - {OfRequest(i)})
  }

  function Move(p: Page, i: nat, phase: Phase): Page
    requires i < |p.requests|
  {
    WithRequest(p, i, p.requests[i].(phase := phase))
  }

  function MoveUnlessStopped(p: Page, i: nat, phase: Phase): Page
    requires i < |p.requests|
  {
    Move(p, i, if Stopped(p, i) then Rejected else phase)
  }

  function Begins(p: Page, m: Method, hasKey: bool, callerAborted: bool): Page {
    if p.closed || callerAborted then p.(requests := p.requests + [Request(m, hasKey, Rejected, 0, callerAborted, None)])
    else p.(requests := p.requests + [Request(m, hasKey, First, 1, false, None)],
            registered := p.registered + {OfRequest(|p.requests|)})
  }

  /** Join the refresh in flight, or start one. */
  function Refreshing(p: Page, i: nat, csrf: bool): Page
    requires i < |p.requests|
  {
    if !csrf then Move(p, i, Waiting(None))
    else match p.current
      case Some(j) => Move(p, i, Waiting(Some(j)))
      case None =>
        var j := |p.refreshes|;
        Move(p.(refreshes := p.refreshes + [Refresh(Asking, false)], registered := p.registered + {OfRefresh(j)}, current := Some(j)),
             i, Waiting(Some(j)))
  }

  function Responds(p: Page, i: nat, answer: Option<Status>, csrf: bool): Page
    requires i < |p.requests|
  {
    if answer.None? || Stopped(p, i) then Move(p, i, Rejected)
    else if answer.value == UNAUTHORIZED && p.requests[i].phase.First? then Refreshing(p, i, csrf)
    else Move(p, i, Returning(answer.value))
  }

  function Wakes(p: Page, i: nat): Page
    requires Can(p, Wake(i))
  {
    match p.requests[i].phase.refresh
    case None => MoveUnlessStopped(p, i, Woken(false))
    case Some(j) =>
      (match p.refreshes[j].phase.result
       case None => Move(p, i, Rejected)
       case Some(ok) =>
         if Stopped(p, i) then Move(p, i, Rejected)
         else WithRequest(p, i, p.requests[i].(phase := Woken(ok), renewal := if ok then Some(j) else None)))
  }

  function Resumes(p: Page, i: nat): Page
    requires Can(p, Resume(i))
  {
    var r := p.requests[i];
    if Stopped(p, i) then Move(p, i, Rejected)
    else if !r.phase.ok || !Replayable(r.m, r.hasKey) then Move(p, i, Returning(UNAUTHORIZED))
    else WithRequest(p, i, r.(phase := Second, sent := r.sent + 1))
  }

  function PutRefresh(p: Page, j: nat, phase: RefreshPhase): Page
    requires j < |p.refreshes|
  {
    p.(refreshes := p.refreshes[j := p.refreshes[j].(phase := phase)],
       registered := if phase.Asking? || phase.Answered? then p.registered else p.registered - {OfRefresh(j)})
  }

  function LogsOut(p: Page): Page {
    p.(closed := true,
       requests := seq(|p.requests|, i requires 0 <= i < |p.requests| =>
                         p.requests[i].(aborted := p.requests[i].aborted || OfRequest(i) in p.registered)),
       refreshes := seq(|p.refreshes|, j requires 0 <= j < |p.refreshes| =>
                         p.refreshes[j].(aborted := p.refreshes[j].aborted || OfRefresh(j) in p.registered)))
  }

  function Next(p: Page, e: Event): Page
    requires Can(p, e)
  {
    match e
    case Begin(m, hasKey, callerAborted) => Begins(p, m, hasKey, callerAborted)
    case Respond(i, answer, csrf) => Responds(p, i, answer, csrf)
    case Wake(i) => Wakes(p, i)
    case Cancel(i) => Move(p, i, Rejected)
    case Resume(i) => Resumes(p, i)
    case Finish(i) => MoveUnlessStopped(p, i, Fulfilled(p.requests[i].phase.status))
    case CallerAborts(i) => WithRequest(p, i, p.requests[i].(aborted := true))
    case RefreshResponds(j, reply) => PutRefresh(p, j, match reply case None => Finished(None) case Some(ok) => Answered(ok))
    case RefreshChecks(j) =>
      PutRefresh(p, j, Finished(if p.closed || p.refreshes[j].aborted then None else Some(p.refreshes[j].phase.ok)))
    case RefreshClears(j) => PutRefresh(p, j, Settled(p.refreshes[j].phase.reply)).(current := None)
    case Logout => LogsOut(p)
  }

  predicate CanAll(p: Page, run: seq<Event>)
    decreases |run|
  {
    run == [] || (Can(p, run[0]) && CanAll(Next(p, run[0]), run[1..]))
  }

  function NextAll(p: Page, run: seq<Event>): Page
    requires CanAll(p, run)
    decreases |run|
  {
    if run == [] then p else NextAll(Next(p, run[0]), run[1..])
  }
}
