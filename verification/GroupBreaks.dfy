/**
 Breaks for a whole group: each kind of break is placed at the earliest free five-minute
 slot, so that never more than a given number run at once. All times are exact minutes.
 */
module GroupBreaks {
  import opened Results
  import opened BreakSearch

  const FIVE: real := 5.0

  function RoundHalfAway(x: real): int {
    if x >= 0.0 then (x + 0.5).Floor else -((0.5 - x).Floor)
  }

  function RoundToFive(t: real): real { FIVE * (RoundHalfAway(t / FIVE) as real) }

  datatype Event = Event(from: real, to: real)

  function Slot(ideal: real, k: nat): real { ideal + FIVE * (k as real) }

  /** The number of events that overlap an interval. */
  function Conflicts(events: seq<Event>, s: real, e: real): nat {
    if events == [] then 0
    else
      var n := |events| - 1;
      Conflicts(events[..n], s, e) + if BreaksOverlap(s, e, events[n].from, events[n].to) then 1 else 0
  }

  /** The number of events under way at an instant. */
  function Running(events: seq<Event>, x: real): nat {
    if events == [] then 0
    else
      var n := |events| - 1;
      Running(events[..n], x) + if events[n].from <= x < events[n].to then 1 else 0
  }

  ghost predicate AtMost(events: seq<Event>, max: nat) { forall x :: Running(events, x) <= max }

  predicate Free(events: seq<Event>, duration: real, max: nat, t: real) {
    Conflicts(events, t, t + duration) < max
  }

  /** The `k`th slot from the ideal is the first free one. */
  ghost predicate FirstFree(events: seq<Event>, ideal: real, duration: real, max: nat, k: nat) {
    && Free(events, duration, max, Slot(ideal, k))
    && forall j: nat :: j < k ==> !Free(events, duration, max, Slot(ideal, j))
  }

  ghost predicate Earliest(events: seq<Event>, ideal: real, duration: real, max: nat, t: real) {
    exists k: nat :: FirstFree(events, ideal, duration, max, k) && t == RoundToFive(Slot(ideal, k))
  }

  method ScheduleEvent(ideal: real, duration: real, events: seq<Event>, maxConcurrent: nat)
    returns (time: real, events': seq<Event>)
    requires maxConcurrent >= 1
    ensures Earliest(events, ideal, duration, maxConcurrent, time)
    ensures events' == events + [Event(time, time + duration)]
  {
    time := ideal;
    ghost var k: nat := 0;
    ghost var last := LastEnd(events);
    while true
      invariant time == Slot(ideal, k)
      invariant forall j: nat :: j < k ==> !Free(events, duration, maxConcurrent, Slot(ideal, j))
      decreases Left(last - time)
    {
      var conflicts := 0;
      for i := 0 to |events|
        invariant conflicts == Conflicts(events[..i], time, time + duration)
      {
        assert events[..i + 1][..i] == events[..i];
        if BreaksOverlap(time, time + duration, events[i].from, events[i].to) {
          conflicts := conflicts + 1;
        }
      }
      assert events[..|events|] == events;
      if conflicts < maxConcurrent {
        break;
      }
      NoneAfterTheLast(events, time, time + duration);
      time := time + FIVE;
      k := k + 1;
    }
    time := RoundToFive(time);
    events' := events + [Event(time, time + duration)];
  }

  function LastEnd(events: seq<Event>): real {
    if events == [] then 0.0
    else
      var n := |events| - 1;
      var last := LastEnd(events[..n]);
      if events[n].to > last then events[n].to else last
  }

  lemma {:induction false} NoneAfterTheLast(events: seq<Event>, s: real, e: real)
    ensures Conflicts(events, s, e) > 0 ==> s < LastEnd(events)
  {
    if events != [] {
      NoneAfterTheLast(events[..|events| - 1], s, e);
    }
  }

  // ---- the bound on concurrent breaks ----

  predicate OnGrid(t: real) { t == FIVE * ((t / FIVE).Floor as real) }

  lemma GridPoint(n: int)
    ensures FIVE * (n as real) / FIVE == n as real
    ensures (n as real).Floor == n && RoundHalfAway(n as real) == n
    ensures OnGrid(FIVE * (n as real))
  {
  }

  lemma RoundingGivesGrid(t: real)
    ensures OnGrid(RoundToFive(t))
    ensures OnGrid(t) ==> RoundToFive(t) == t
  {
    GridPoint(RoundHalfAway(t / FIVE));
    GridPoint((t / FIVE).Floor);
  }

  lemma SlotsStayOnGrid(ideal: real, k: nat)
    requires OnGrid(ideal)
    ensures OnGrid(Slot(ideal, k))
  {
    assert Slot(ideal, k) / FIVE == ((ideal / FIVE).Floor + k) as real;
  }

  lemma {:induction false} RunningOverlaps(events: seq<Event>, s: real, e: real, x: real)
    requires s <= x < e
    ensures Running(events, x) <= Conflicts(events, s, e)
  {
    if events != [] {
      RunningOverlaps(events[..|events| - 1], s, e, x);
    }
  }

  /** An event placed from an ideal on the grid starts in a free slot, the first at or after the ideal, and keeps the bound. */
  lemma PlacingKeepsBound(events: seq<Event>, ideal: real, duration: real, max: nat, t: real)
    requires OnGrid(ideal) && Earliest(events, ideal, duration, max, t)
    ensures OnGrid(t) && ideal <= t && Free(events, duration, max, t)
    ensures forall u :: ideal <= u < t && OnGrid(u) ==> !Free(events, duration, max, u)
    ensures AtMost(events, max) ==> AtMost(events + [Event(t, t + duration)], max)
  {
    var k: nat :| FirstFree(events, ideal, duration, max, k) && t == RoundToFive(Slot(ideal, k));
    SlotsStayOnGrid(ideal, k);
    RoundingGivesGrid(Slot(ideal, k));
    forall u | ideal <= u < t && OnGrid(u) ensures !Free(events, duration, max, u) {
      SlotOf(ideal, u);
    }
    var after := events + [Event(t, t + duration)];
    assert after[..|after| - 1] == events;
    if AtMost(events, max) {
      forall x ensures Running(after, x) <= max {
        if t <= x < t + duration {
          RunningOverlaps(events, t, t + duration, x);
        }
      }
    }
  }

  lemma SlotOf(ideal: real, u: real)
    requires OnGrid(ideal) && OnGrid(u) && ideal <= u
    ensures exists j: nat :: u == Slot(ideal, j)
  {
    var j := (u / FIVE).Floor - (ideal / FIVE).Floor;
    assert j >= 0;
    assert u == Slot(ideal, j);
  }

  // ---- the group ----

  /** Settings in minutes. */
  datatype Policy = Policy(break1Offset: real, lunchOffset: real, break2Offset: real,
                           break1Duration: real, lunchDuration: real, break2Duration: real)

  datatype Employee = Employee(name: string, start: real, ownLunch: Option<real>)

  datatype Plan = Plan(employee: Employee, lunchDuration: real, break1: real, lunch: real, break2: real)

  function LunchDuration(e: Employee, p: Policy): real {
    match e.ownLunch case Some(d) => d case None => p.lunchDuration
  }

  predicate InOrder(s: seq<Employee>) { forall i, j :: 0 <= i < j < |s| ==> s[i].start <= s[j].start }

  function Insert(s: seq<Employee>, e: Employee): seq<Employee> {
    if s == [] || s[|s| - 1].start <= e.start then s + [e]
    else Insert(s[..|s| - 1], e) + [s[|s| - 1]]
  }

  /** The stable sort by start. */
  function ByStart(s: seq<Employee>): seq<Employee> {
    if s == [] then [] else Insert(ByStart(s[..|s| - 1]), s[|s| - 1])
  }

  lemma {:induction false} InsertAdds(s: seq<Employee>, e: Employee)
    ensures multiset(Insert(s, e)) == multiset(s) + multiset{e}
  {
    if s != [] && s[|s| - 1].start > e.start {
      InsertAdds(s[..|s| - 1], e);
      assert s == s[..|s| - 1] + [s[|s| - 1]];
    }
  }

  lemma {:induction false} InsertKeepsOrder(s: seq<Employee>, e: Employee)
    requires InOrder(s)
    ensures InOrder(Insert(s, e))
  {
    if s != [] && s[|s| - 1].start > e.start {
      var n := |s| - 1;
      var front := Insert(s[..n], e);
      InsertKeepsOrder(s[..n], e);
      InsertAdds(s[..n], e);
      forall i | 0 <= i < |front| ensures front[i].start <= s[n].start {
        assert front[i] in multiset(front);
        assert front[i] == e || front[i] in s[..n];
      }
    }
  }

  /** Sorting by start keeps everyone. */
  lemma {:induction false} ByStartSorts(s: seq<Employee>)
    ensures InOrder(ByStart(s)) && multiset(ByStart(s)) == multiset(s)
  {
    if s != [] {
      var n := |s| - 1;
      ByStartSorts(s[..n]);
      InsertKeepsOrder(ByStart(s[..n]), s[n]);
      InsertAdds(ByStart(s[..n]), s[n]);
      assert s == s[..n] + [s[n]];
    }
  }

  function Events1(plans: seq<Plan>, p: Policy): seq<Event> {
    seq(|plans|, i requires 0 <= i < |plans| => Event(plans[i].break1, plans[i].break1 + p.break1Duration))
  }

  function LunchEvents(plans: seq<Plan>): seq<Event> {
    seq(|plans|, i requires 0 <= i < |plans| => Event(plans[i].lunch, plans[i].lunch + plans[i].lunchDuration))
  }

  function Events2(plans: seq<Plan>, p: Policy): seq<Event> {
    seq(|plans|, i requires 0 <= i < |plans| => Event(plans[i].break2, plans[i].break2 + p.break2Duration))
  }

  function MaxBreaks(count: nat): nat { if count > 4 then 2 else 1 }

  function MaxLunches(count: nat): nat { if count >= 4 then 2 else 1 }

  /** A plan places each of its breaks at the earliest slot that the plans before it leave free. */
  ghost predicate Follows(before: seq<Plan>, plan: Plan, e: Employee, p: Policy, count: nat) {
    && plan.employee == e && plan.lunchDuration == LunchDuration(e, p)
    && Earliest(Events1(before, p), RoundToFive(e.start + p.break1Offset), p.break1Duration, MaxBreaks(count), plan.break1)
    && Earliest(LunchEvents(before), RoundToFive(e.start + p.lunchOffset), plan.lunchDuration, MaxLunches(count), plan.lunch)
    && Earliest(Events2(before, p), RoundToFive(plan.lunch + plan.lunchDuration + p.break2Offset), p.break2Duration,
                MaxBreaks(count), plan.break2)
  }

  ghost predicate IsSchedule(plans: seq<Plan>, employees: seq<Employee>, p: Policy, count: nat) {
    |plans| == |employees| && forall i :: 0 <= i < |plans| ==> Follows(plans[..i], plans[i], employees[i], p, count)
  }

  /** How two employees share: the second waits for the first. */
  function After(wanted: real, firstEnd: real): real {
    RoundToFive(if wanted > firstEnd then wanted else firstEnd)
  }

  function PairPlan(a: Employee, b: Employee, p: Policy): (Plan, Plan) {
    var a1 := RoundToFive(a.start + p.break1Offset);
    var b1 := After(b.start + p.break1Offset, a1 + p.break1Duration);
    var aLunch := RoundToFive(a.start + p.lunchOffset);
    var aLunchEnd := aLunch + LunchDuration(a, p);
    var bLunch := After(b.start + p.lunchOffset, aLunchEnd);
    var a2 := RoundToFive(aLunchEnd + p.break2Offset);
    var b2 := After(bLunch + LunchDuration(b, p), a2 + p.break2Duration);
    (Plan(a, LunchDuration(a, p), a1, aLunch, a2), Plan(b, LunchDuration(b, p), b1, bLunch, b2))
  }

  method ScheduleGroupBreaks(employees: seq<Employee>, p: Policy) returns (plans: seq<Plan>)
    ensures var sorted := ByStart(employees);
            if |employees| == 2 then |sorted| == 2 && plans == [PairPlan(sorted[0], sorted[1], p).0, PairPlan(sorted[0], sorted[1], p).1]
            else IsSchedule(plans, sorted, p, |employees|)
  {
    var sorted := ByStart(employees);
    ByStartSorts(employees);
    assert |multiset(sorted)| == |multiset(employees)|;
    if |employees| == 2 {
      var (first, second) := PairPlan(sorted[0], sorted[1], p);
      plans := [first, second];
    } else {
      plans := ScheduleInTurn(sorted, p);
    }
  }

  method ScheduleInTurn(sorted: seq<Employee>, p: Policy) returns (plans: seq<Plan>)
    ensures IsSchedule(plans, sorted, p, |sorted|)
  {
    var breakEvents1, lunchEvents, breakEvents2: seq<Event> := [], [], [];
    plans := [];
    for i := 0 to |sorted|
      invariant IsSchedule(plans, sorted[..i], p, |sorted|)
      invariant breakEvents1 == Events1(plans, p) && lunchEvents == LunchEvents(plans) && breakEvents2 == Events2(plans, p)
    {
      var plan;
      plan, breakEvents1, lunchEvents, breakEvents2 :=
        PlaceBreaks(sorted[i], p, |sorted|, breakEvents1, lunchEvents, breakEvents2, plans);
      ScheduleExtends(plans, plan, sorted[..i], sorted[i], p, |sorted|);
      assert sorted[..i + 1] == sorted[..i] + [sorted[i]];
      plans := plans + [plan];
    }
    assert sorted[..|sorted|] == sorted;
  }

  method PlaceBreaks(emp: Employee, p: Policy, count: nat, events1: seq<Event>, lunches: seq<Event>, events2: seq<Event>,
                     ghost before: seq<Plan>)
    returns (plan: Plan, breakEvents1: seq<Event>, lunchEvents: seq<Event>, breakEvents2: seq<Event>)
    requires events1 == Events1(before, p) && lunches == LunchEvents(before) && events2 == Events2(before, p)
    ensures Follows(before, plan, emp, p, count)
    ensures breakEvents1 == Events1(before + [plan], p)
    ensures lunchEvents == LunchEvents(before + [plan])
    ensures breakEvents2 == Events2(before + [plan], p)
  {
    var lunchDuration := LunchDuration(emp, p);
    var break1, lunch, break2;
    break1, breakEvents1 := ScheduleEvent(RoundToFive(emp.start + p.break1Offset), p.break1Duration, events1, MaxBreaks(count));
    lunch, lunchEvents := ScheduleEvent(RoundToFive(emp.start + p.lunchOffset), lunchDuration, lunches, MaxLunches(count));
    break2, breakEvents2 :=
      ScheduleEvent(RoundToFive(lunch + lunchDuration + p.break2Offset), p.break2Duration, events2, MaxBreaks(count));
    plan := Plan(emp, lunchDuration, break1, lunch, break2);
    EventsExtend(before, plan, p);
  }

  lemma EventsExtend(plans: seq<Plan>, plan: Plan, p: Policy)
    ensures Events1(plans + [plan], p) == Events1(plans, p) + [Event(plan.break1, plan.break1 + p.break1Duration)]
    ensures LunchEvents(plans + [plan]) == LunchEvents(plans) + [Event(plan.lunch, plan.lunch + plan.lunchDuration)]
    ensures Events2(plans + [plan], p) == Events2(plans, p) + [Event(plan.break2, plan.break2 + p.break2Duration)]
  {
  }

  lemma ScheduleExtends(plans: seq<Plan>, plan: Plan, front: seq<Employee>, e: Employee, p: Policy, count: nat)
    ensures IsSchedule(plans + [plan], front + [e], p, count)
       <==> IsSchedule(plans, front, p, count) && Follows(plans, plan, e, p, count)
  {
    var longer, staff := plans + [plan], front + [e];
    assert forall i :: 0 <= i <= |plans| ==> longer[..i] == plans[..i];
    assert plans[..|plans|] == plans;
    if IsSchedule(longer, staff, p, count) {
      assert Follows(longer[..|plans|], longer[|plans|], staff[|plans|], p, count);
      forall i | 0 <= i < |plans| ensures Follows(plans[..i], plans[i], front[i], p, count) {
        assert Follows(longer[..i], longer[i], staff[i], p, count);
      }
    }
  }

  /** Never more than the allowed number of breaks of one kind run at any instant. */
  lemma {:induction false} NeverTooManyOnBreak(plans: seq<Plan>, employees: seq<Employee>, p: Policy, count: nat)
    requires IsSchedule(plans, employees, p, count)
    ensures AtMost(Events1(plans, p), if count > 4 then 2 else 1)
    ensures AtMost(LunchEvents(plans), if count > 3 then 2 else 1)
    ensures AtMost(Events2(plans, p), if count > 4 then 2 else 1)
  {
    if plans != [] {
      var n := |plans| - 1;
      LastFollows(plans, employees, p, count);
      NeverTooManyOnBreak(plans[..n], employees[..n], p, count);
      LastKeepsBounds(plans, employees[n], p, count);
    }
  }

  lemma LastFollows(plans: seq<Plan>, employees: seq<Employee>, p: Policy, count: nat)
    requires IsSchedule(plans, employees, p, count) && plans != []
    ensures var n := |plans| - 1;
            IsSchedule(plans[..n], employees[..n], p, count) && Follows(plans[..n], plans[n], employees[n], p, count)
  {
    var n := |plans| - 1;
    var front := plans[..n];
    forall i | 0 <= i < n ensures Follows(front[..i], front[i], employees[..n][i], p, count) {
      EarlierFollows(plans, employees, p, count, i);
    }
  }

  lemma EarlierFollows(plans: seq<Plan>, employees: seq<Employee>, p: Policy, count: nat, i: nat)
    requires IsSchedule(plans, employees, p, count) && i < |plans| - 1
    ensures var n := |plans| - 1;
            Follows(plans[..n][..i], plans[..n][i], employees[..n][i], p, count)
  {
    assert plans[..|plans| - 1][..i] == plans[..i];
  }

  lemma LastKeepsBounds(plans: seq<Plan>, e: Employee, p: Policy, count: nat)
    requires plans != [] && Follows(plans[..|plans| - 1], plans[|plans| - 1], e, p, count)
    ensures AtMost(Events1(plans[..|plans| - 1], p), MaxBreaks(count)) ==> AtMost(Events1(plans, p), MaxBreaks(count))
    ensures AtMost(LunchEvents(plans[..|plans| - 1]), MaxLunches(count)) ==> AtMost(LunchEvents(plans), MaxLunches(count))
    ensures AtMost(Events2(plans[..|plans| - 1], p), MaxBreaks(count)) ==> AtMost(Events2(plans, p), MaxBreaks(count))
  {
    var front, last := plans[..|plans| - 1], plans[|plans| - 1];
    assert plans == front + [last];
    EventsExtend(front, last, p);
    FollowingKeepsBounds(front, last, e, p, count);
  }

  lemma FollowingKeepsBounds(front: seq<Plan>, last: Plan, e: Employee, p: Policy, count: nat)
    requires Follows(front, last, e, p, count)
    ensures AtMost(Events1(front, p), MaxBreaks(count)) ==>
              AtMost(Events1(front, p) + [Event(last.break1, last.break1 + p.break1Duration)], MaxBreaks(count))
    ensures AtMost(LunchEvents(front), MaxLunches(count)) ==>
              AtMost(LunchEvents(front) + [Event(last.lunch, last.lunch + last.lunchDuration)], MaxLunches(count))
    ensures AtMost(Events2(front, p), MaxBreaks(count)) ==>
              AtMost(Events2(front, p) + [Event(last.break2, last.break2 + p.break2Duration)], MaxBreaks(count))
  {
    KindKeepsBound(Events1(front, p), e.start + p.break1Offset, p.break1Duration, MaxBreaks(count), last.break1);
    KindKeepsBound(LunchEvents(front), e.start + p.lunchOffset, last.lunchDuration, MaxLunches(count), last.lunch);
    KindKeepsBound(Events2(front, p), last.lunch + last.lunchDuration + p.break2Offset, p.break2Duration, MaxBreaks(count), last.break2);
  }

  lemma KindKeepsBound(events: seq<Event>, wanted: real, duration: real, max: nat, t: real)
    requires Earliest(events, RoundToFive(wanted), duration, max, t)
    ensures AtMost(events, max) ==> AtMost(events + [Event(t, t + duration)], max)
  {
    RoundingGivesGrid(wanted);
    PlacingKeepsBound(events, RoundToFive(wanted), duration, max, t);
  }

  // ---- two employees ----

  predicate Waits(wanted: real, first: real, d: real) { After(wanted, first + d) >= first + d }

  /** A duration that rounding does not shorten. */
  predicate NotShortened(duration: real) { RoundToFive(duration) >= duration }

  lemma RoundingKeepsOrder(x: real, y: real)
    requires x <= y
    ensures RoundToFive(x) <= RoundToFive(y)
  {
    assert x / FIVE <= y / FIVE;
  }

  lemma RoundingFromGrid(t: real, d: real)
    requires OnGrid(t) && 0.0 <= t && 0.0 <= d
    ensures RoundToFive(t + d) == t + RoundToFive(d)
  {
    var n := (t / FIVE).Floor;
    assert (t + d) / FIVE == n as real + d / FIVE;
    assert (n as real + d / FIVE + 0.5).Floor == n + (d / FIVE + 0.5).Floor;
  }

  /** The second employee's break waits for the end of the first's, whatever was wanted, exactly when rounding does not shorten it. */
  lemma SecondWaitsExactly(first: real, d: real)
    requires OnGrid(first) && 0.0 <= first && 0.0 <= d
    ensures (forall wanted :: Waits(wanted, first, d)) <==> NotShortened(d)
  {
    RoundingFromGrid(first, d);
    if NotShortened(d) {
      forall wanted ensures Waits(wanted, first, d) {
        RoundingKeepsOrder(first + d, if wanted > first + d then wanted else first + d);
      }
    } else {
      assert !Waits(first, first, d);
    }
  }

  predicate InTurn(first: real, second: real, wanted: real, wantedNext: real, d: real) {
    first == RoundToFive(wanted) && second == After(wantedNext, first + d)
  }

  lemma TurnsAreApart(first: real, second: real, wanted: real, wantedNext: real, d: real, dNext: real)
    requires InTurn(first, second, wanted, wantedNext, d) && 0.0 <= wanted && 0.0 <= d && NotShortened(d)
    ensures 0.0 <= first && AtMost([Event(first, first + d), Event(second, second + dNext)], 1)
  {
    NonNegative(wanted);
    SecondWaitsExactly(first, d);
    assert Waits(wantedNext, first, d);
    OneAtATime(Event(first, first + d), Event(second, second + dNext));
  }

  lemma FirstBreaksApart(a: Employee, b: Employee, p: Policy)
    requires 0.0 <= a.start + p.break1Offset && 0.0 <= p.break1Duration && NotShortened(p.break1Duration)
    ensures var (x, y) := PairPlan(a, b, p);
            AtMost([Event(x.break1, x.break1 + p.break1Duration), Event(y.break1, y.break1 + p.break1Duration)], 1)
  {
    var (x, y) := PairPlan(a, b, p);
    TurnsAreApart(x.break1, y.break1, a.start + p.break1Offset, b.start + p.break1Offset, p.break1Duration, p.break1Duration);
  }

  lemma LunchesApart(a: Employee, b: Employee, p: Policy)
    requires 0.0 <= a.start + p.lunchOffset && 0.0 <= LunchDuration(a, p) && NotShortened(LunchDuration(a, p))
    ensures var (x, y) := PairPlan(a, b, p);
            0.0 <= x.lunch && AtMost([Event(x.lunch, x.lunch + x.lunchDuration), Event(y.lunch, y.lunch + y.lunchDuration)], 1)
  {
    var (x, y) := PairPlan(a, b, p);
    TurnsAreApart(x.lunch, y.lunch, a.start + p.lunchOffset, b.start + p.lunchOffset, x.lunchDuration, y.lunchDuration);
  }

  lemma SecondBreaksApart(a: Employee, b: Employee, p: Policy)
    requires 0.0 <= PairPlan(a, b, p).0.lunch + LunchDuration(a, p) + p.break2Offset
    requires 0.0 <= p.break2Duration && NotShortened(p.break2Duration)
    ensures var (x, y) := PairPlan(a, b, p);
            AtMost([Event(x.break2, x.break2 + p.break2Duration), Event(y.break2, y.break2 + p.break2Duration)], 1)
  {
    var (x, y) := PairPlan(a, b, p);
    TurnsAreApart(x.break2, y.break2, x.lunch + x.lunchDuration + p.break2Offset, y.lunch + y.lunchDuration,
                  p.break2Duration, p.break2Duration);
  }

  /** Two employees are never on the same kind of break together when no duration is shortened, as with multiples of five minutes. */
  lemma PairNeverTogether(a: Employee, b: Employee, p: Policy, x: Plan, y: Plan)
    requires PairPlan(a, b, p) == (x, y)
    requires 0.0 <= a.start && 0.0 <= p.break1Offset && 0.0 <= p.lunchOffset && 0.0 <= p.break2Offset
    requires 0.0 <= p.break1Duration && 0.0 <= LunchDuration(a, p) && 0.0 <= p.break2Duration
    requires NotShortened(p.break1Duration) && NotShortened(LunchDuration(a, p)) && NotShortened(p.break2Duration)
    ensures AtMost(Events1([x, y], p), 1) && AtMost(LunchEvents([x, y]), 1) && AtMost(Events2([x, y], p), 1)
  {
    FirstBreaksApart(a, b, p);
    LunchesApart(a, b, p);
    SecondBreaksApart(a, b, p);
    PairEvents(x, y, p);
  }

  lemma PairEvents(x: Plan, y: Plan, p: Policy)
    ensures Events1([x, y], p) == [Event(x.break1, x.break1 + p.break1Duration), Event(y.break1, y.break1 + p.break1Duration)]
    ensures LunchEvents([x, y]) == [Event(x.lunch, x.lunch + x.lunchDuration), Event(y.lunch, y.lunch + y.lunchDuration)]
    ensures Events2([x, y], p) == [Event(x.break2, x.break2 + p.break2Duration), Event(y.break2, y.break2 + p.break2Duration)]
  {
  }

  lemma NonNegative(t: real)
    requires 0.0 <= t
    ensures 0.0 <= RoundToFive(t) && OnGrid(RoundToFive(t))
  {
    RoundingGivesGrid(t);
    RoundingKeepsOrder(0.0, t);
  }

  lemma OneAtATime(e: Event, f: Event)
    requires e.to <= f.from
    ensures AtMost([e, f], 1)
  {
    assert [e, f][..1] == [e];
    assert [e][..0] == [];
    forall x ensures Running([e, f], x) <= 1 {
      assert Running([e], x) <= 1;
    }
  }

  /** A first break whose duration rounding shortens makes two employees with the same start overlap. */
  lemma ShortenedBreaksOverlap(a: Employee, b: Employee, p: Policy)
    requires a.start == b.start && 0.0 <= a.start && 0.0 <= p.break1Offset && 0.0 <= p.break1Duration
    requires !NotShortened(p.break1Duration)
    ensures var (x, y) := PairPlan(a, b, p); !AtMost(Events1([x, y], p), 1)
  {
    var (x, y) := PairPlan(a, b, p);
    NonNegative(a.start + p.break1Offset);
    RoundingFromGrid(x.break1, p.break1Duration);
    RoundingKeepsOrder(0.0, p.break1Duration);
    var events := Events1([x, y], p);
    assert events[..1] == [Event(x.break1, x.break1 + p.break1Duration)];
    assert events[..1][..0] == [];
    assert Running(events[..1], y.break1) == 1;
    assert Running(events, y.break1) == 2;
  }

  /** Durations that are multiples of five minutes are not shortened. */
  lemma MultiplesOfFiveStand(d: real)
    requires OnGrid(d)
    ensures NotShortened(d)
  {
    RoundingGivesGrid(d);
  }

  // ---- what an employee can count on ----

  predicate Near(t: real, wish: real) { wish - 2.5 <= t <= wish + 2.5 }

  /** Rounding goes to the nearest multiple of five minutes, and from halfway away from zero. */
  lemma RoundsToTheNearest(t: real)
    ensures RoundToFive(t) == 5.0 * ((RoundToFive(t) / 5.0).Floor as real)
    ensures Near(RoundToFive(t), t)
    ensures 0.0 <= t ==> t - RoundToFive(t) < 2.5
    ensures t < 0.0 ==> RoundToFive(t) - t < 2.5
  {
    RoundingGivesGrid(t);
  }

  ghost function OnBreak1(plans: seq<Plan>, p: Policy, x: real): set<nat> {
    set i: nat | i < |plans| && plans[i].break1 <= x < plans[i].break1 + p.break1Duration
  }

  ghost function AtLunch(plans: seq<Plan>, x: real): set<nat> {
    set i: nat | i < |plans| && plans[i].lunch <= x < plans[i].lunch + plans[i].lunchDuration
  }

  ghost function OnBreak2(plans: seq<Plan>, p: Policy, x: real): set<nat> {
    set i: nat | i < |plans| && plans[i].break2 <= x < plans[i].break2 + p.break2Duration
  }

  ghost function Under(events: seq<Event>, x: real): set<nat> {
    set i: nat | i < |events| && events[i].from <= x < events[i].to
  }

  lemma {:induction false} RunningIsUnder(events: seq<Event>, x: real)
    ensures Running(events, x) == |Under(events, x)|
  {
    if events != [] {
      var n := |events| - 1;
      RunningIsUnder(events[..n], x);
      assert Under(events, x) == Under(events[..n], x) + if events[n].from <= x < events[n].to then {n} else {};
    }
  }

  /**
   At any instant at most one employee is on a first break, one at lunch and one on a second break; two may be at
   lunch from four employees on, and on a break from five on.
   */
  lemma FewAtATime(plans: seq<Plan>, employees: seq<Employee>, p: Policy, x: real)
    requires IsSchedule(plans, employees, p, |employees|)
    ensures |OnBreak1(plans, p, x)| <= if |employees| >= 5 then 2 else 1
    ensures |AtLunch(plans, x)| <= if |employees| >= 4 then 2 else 1
    ensures |OnBreak2(plans, p, x)| <= if |employees| >= 5 then 2 else 1
  {
    NeverTooManyOnBreak(plans, employees, p, |employees|);
    BreaksAreRunning(plans, p, x);
  }

  lemma BreaksAreRunning(plans: seq<Plan>, p: Policy, x: real)
    ensures |OnBreak1(plans, p, x)| == Running(Events1(plans, p), x)
    ensures |AtLunch(plans, x)| == Running(LunchEvents(plans), x)
    ensures |OnBreak2(plans, p, x)| == Running(Events2(plans, p), x)
  {
    RunningIsUnder(Events1(plans, p), x);
    RunningIsUnder(LunchEvents(plans), x);
    RunningIsUnder(Events2(plans, p), x);
    assert OnBreak1(plans, p, x) == Under(Events1(plans, p), x);
    assert AtLunch(plans, x) == Under(LunchEvents(plans), x);
    assert OnBreak2(plans, p, x) == Under(Events2(plans, p), x);
  }

  lemma PlacedAfterWish(events: seq<Event>, wish: real, duration: real, max: nat, t: real)
    requires Earliest(events, RoundToFive(wish), duration, max, t)
    ensures wish - 2.5 <= t
    ensures |events| < max ==> Near(t, wish)
  {
    RoundsToTheNearest(wish);
    RoundingGivesGrid(wish);
    PlacingKeepsBound(events, RoundToFive(wish), duration, max, t);
    if |events| < max {
      FewConflicts(events, RoundToFive(wish), RoundToFive(wish) + duration);
      assert Free(events, duration, max, RoundToFive(wish));
    }
  }

  lemma {:induction false} FewConflicts(events: seq<Event>, s: real, e: real)
    ensures Conflicts(events, s, e) <= |events|
  {
    if events != [] {
      FewConflicts(events[..|events| - 1], s, e);
    }
  }

  /**
   Nobody's break comes more than two and a half minutes before it is wished for: the first break and the lunch at
   their offsets from the start, the second break at its offset from the end of the lunch. Whoever is placed first
   has all of them within two and a half minutes.
   */
  lemma BreaksFollowTheWishes(plans: seq<Plan>, employees: seq<Employee>, p: Policy, count: nat, i: nat)
    requires IsSchedule(plans, employees, p, count) && i < |plans|
    ensures var e, plan := employees[i], plans[i];
            && plan.employee == e
            && plan.lunchDuration == (if e.ownLunch.Some? then e.ownLunch.value else p.lunchDuration)
            && e.start + p.break1Offset - 2.5 <= plan.break1
            && e.start + p.lunchOffset - 2.5 <= plan.lunch
            && plan.lunch + plan.lunchDuration + p.break2Offset - 2.5 <= plan.break2
            && (i == 0 ==>
                  && Near(plan.break1, e.start + p.break1Offset)
                  && Near(plan.lunch, e.start + p.lunchOffset)
                  && Near(plan.break2, plan.lunch + plan.lunchDuration + p.break2Offset))
  {
    assert Follows(plans[..i], plans[i], employees[i], p, count);
    FollowingKeepsWishes(plans[..i], plans[i], employees[i], p, count);
  }

  lemma FollowingKeepsWishes(before: seq<Plan>, plan: Plan, e: Employee, p: Policy, count: nat)
    requires Follows(before, plan, e, p, count)
    ensures e.start + p.break1Offset - 2.5 <= plan.break1
    ensures e.start + p.lunchOffset - 2.5 <= plan.lunch
    ensures plan.lunch + plan.lunchDuration + p.break2Offset - 2.5 <= plan.break2
    ensures before == [] ==>
              && Near(plan.break1, e.start + p.break1Offset)
              && Near(plan.lunch, e.start + p.lunchOffset)
              && Near(plan.break2, plan.lunch + plan.lunchDuration + p.break2Offset)
  {
    PlacedAfterWish(Events1(before, p), e.start + p.break1Offset, p.break1Duration, MaxBreaks(count), plan.break1);
    PlacedAfterWish(LunchEvents(before), e.start + p.lunchOffset, plan.lunchDuration, MaxLunches(count), plan.lunch);
    PlacedAfterWish(Events2(before, p), plan.lunch + plan.lunchDuration + p.break2Offset, p.break2Duration,
                    MaxBreaks(count), plan.break2);
  }

  function Later(s: real, t: real): real { if s > t then s else t }

  /**
   Of two employees the first has every break within two and a half minutes of the wish. The second has it within two
   and a half minutes of the wish or of the end of the first one's break, whichever is later; the second break is
   wished for right after lunch.
   */
  lemma PairFollowsTheWishes(a: Employee, b: Employee, p: Policy)
    ensures var (x, y) := PairPlan(a, b, p);
            && x.employee == a && y.employee == b
            && x.lunchDuration == (if a.ownLunch.Some? then a.ownLunch.value else p.lunchDuration)
            && y.lunchDuration == (if b.ownLunch.Some? then b.ownLunch.value else p.lunchDuration)
            && Near(x.break1, a.start + p.break1Offset)
            && Near(x.lunch, a.start + p.lunchOffset)
            && Near(x.break2, x.lunch + x.lunchDuration + p.break2Offset)
            && Near(y.break1, Later(b.start + p.break1Offset, x.break1 + p.break1Duration))
            && Near(y.lunch, Later(b.start + p.lunchOffset, x.lunch + x.lunchDuration))
            && Near(y.break2, Later(y.lunch + y.lunchDuration, x.break2 + p.break2Duration))
  {
    var (x, y) := PairPlan(a, b, p);
    RoundsToTheNearest(a.start + p.break1Offset);
    RoundsToTheNearest(a.start + p.lunchOffset);
    RoundsToTheNearest(x.lunch + x.lunchDuration + p.break2Offset);
    RoundsToTheNearest(Later(b.start + p.break1Offset, x.break1 + p.break1Duration));
    RoundsToTheNearest(Later(b.start + p.lunchOffset, x.lunch + x.lunchDuration));
    RoundsToTheNearest(Later(y.lunch + y.lunchDuration, x.break2 + p.break2Duration));
  }
}
