/** What a run of chore assignment promises, for any schedule, staff and list of chores. */
module ChoreGuarantees {
  import opened Results
  import opened Chores

  // ---- what is added ----

  /** Only automatic tasks follow, each with a key not in the list before it. */
  ghost predicate Grows(a: seq<Task>, b: seq<Task>) {
    && |a| <= |b| && b[..|a|] == a
    && forall k :: |a| <= k < |b| ==> Auto(b[k]) && KeyOf(b[k]).Some? && !HasKey(b[..k], KeyOf(b[k]).value)
  }

  /** Nobody comes, goes or loses a task; what is gained is as `Grows` says. */
  ghost predicate Gains(es: seq<Employee>, out: seq<Employee>) {
    && |es| == |out|
    && forall i :: 0 <= i < |es| ==> es[i].id == out[i].id && Grows(es[i].List(), out[i].List())
  }

  lemma PlaceGains(es: seq<Employee>, r: Rules, c: Chore)
    ensures Gains(es, Place(es, r, c))
  {
    var target := Target(es, r, c);
    if target.Some? {
      var i := target.value;
      var a := es[i].List();
      var b := a + [c.NewTask()];
      assert b[..|a|] == a;
      assert KeyOf(c.NewTask()) == Some(c.Key());
    }
  }

  lemma GrowsAdd(a: seq<Task>, b: seq<Task>, c: seq<Task>)
    requires Grows(a, b) && Grows(b, c)
    ensures Grows(a, c)
  {
    assert forall k :: 0 <= k <= |b| ==> c[..|b|][..k] == c[..k];
    assert c[..|a|] == a;
    forall k | |a| <= k < |c| ensures Auto(c[k]) && KeyOf(c[k]).Some? && !HasKey(c[..k], KeyOf(c[k]).value) {
      if k < |b| {
        assert c[k] == c[..|b|][k] == b[k];
        assert c[..k] == b[..k];
      }
    }
  }

  lemma GainsAdd(es: seq<Employee>, mid: seq<Employee>, out: seq<Employee>)
    requires Gains(es, mid) && Gains(mid, out)
    ensures Gains(es, out)
  {
    forall i | 0 <= i < |es| ensures es[i].id == out[i].id && Grows(es[i].List(), out[i].List()) {
      GrowsAdd(es[i].List(), mid[i].List(), out[i].List());
    }
  }

  lemma {:induction false} FillGains(es: seq<Employee>, r: Rules, n: nat)
    requires n <= |r.chores|
    ensures Gains(es, Fill(es, r, n))
  {
    if n > 0 {
      FillGains(es, r, n - 1);
      FillStepGains(es, r, n);
      GainsAdd(es, Fill(es, r, n - 1), Fill(es, r, n));
    }
  }

  lemma FillStepGains(es: seq<Employee>, r: Rules, n: nat)
    requires 0 < n <= |r.chores|
    ensures Gains(Fill(es, r, n - 1), Fill(es, r, n))
  {
    PlaceGains(Fill(es, r, n - 1), r, r.chores[n - 1]);
  }

  // ---- manual tasks, and running again ----

  lemma {:induction false} ManualKeepsManual(tasks: seq<Task>)
    ensures forall t <- Manual(tasks) :: !Auto(t)
    ensures Manual(Manual(tasks)) == Manual(tasks)
  {
    if tasks != [] {
      var n := |tasks| - 1;
      ManualKeepsManual(tasks[..n]);
      var front := Manual(tasks[..n]);
      assert front + [] == front;
      assert (front + [tasks[n]])[..|front|] == front;
    }
  }

  lemma {:induction false} GrowthIsAutomatic(a: seq<Task>, b: seq<Task>)
    requires Grows(a, b)
    ensures Manual(b) == Manual(a)
    decreases |b|
  {
    if |b| > |a| {
      var n := |b| - 1;
      assert b[..n][..|a|] == b[..|a|];
      assert forall k :: 0 <= k <= n ==> b[..n][..k] == b[..k];
      GrowthIsAutomatic(a, b[..n]);
    } else {
      assert a == b;
    }
  }

  /** Where a run starts filling from: the schedule without its automatic tasks, unless nothing is to be done. */
  lemma RunGains(es: seq<Employee>, staff: Staff, chores: seq<Chore>)
    requires chores != []
    ensures Gains(Strip(es), Run(es, staff, chores))
  {
    if AnyoneThere(es) {
      FillGains(Strip(es), RulesFor(staff, chores), |InOrder(chores)|);
    }
  }

  lemma StrippedAgain(es: seq<Employee>, out: seq<Employee>)
    requires Gains(Strip(es), out)
    ensures Strip(out) == Strip(es)
    ensures AnyoneThere(out) == AnyoneThere(es)
  {
    forall i | 0 <= i < |es| ensures Strip(out)[i] == Strip(es)[i] {
      GrowthIsAutomatic(Strip(es)[i].List(), out[i].List());
      ManualKeepsManual(es[i].List());
    }
    if AnyoneThere(es) {
      var i :| 0 <= i < |es| && es[i].id > 0;
      assert out[i] in out && out[i].id > 0;
    }
    if AnyoneThere(out) {
      var i :| 0 <= i < |out| && out[i].id > 0;
      assert es[i] in es && es[i].id > 0;
    }
  }

  /** Running again with the same chores and staff changes nothing. */
  lemma RunningAgainChangesNothing(es: seq<Employee>, staff: Staff, chores: seq<Chore>)
    ensures Run(Run(es, staff, chores), staff, chores) == Run(es, staff, chores)
  {
    if chores != [] {
      RunGains(es, staff, chores);
      StrippedAgain(es, Run(es, staff, chores));
    }
  }

  /** Every run keeps everyone's manual tasks, in order and in front. */
  lemma ManualTasksStay(es: seq<Employee>, staff: Staff, chores: seq<Chore>, i: nat)
    requires i < |es|
    ensures |Run(es, staff, chores)| == |es| && Run(es, staff, chores)[i].id == es[i].id
    ensures Manual(Run(es, staff, chores)[i].List()) == Manual(es[i].List())
    ensures chores != [] ==> Manual(es[i].List()) <= Run(es, staff, chores)[i].List()
  {
    if chores != [] {
      RunGains(es, staff, chores);
      StrippedAgain(es, Run(es, staff, chores));
      assert Strip(Run(es, staff, chores))[i] == Strip(es)[i];
    }
  }

  /** No automatic task of a run repeats a key of an earlier task of the same person. */
  lemma NoKeyTwice(es: seq<Employee>, staff: Staff, chores: seq<Chore>, i: nat, j: nat, k: nat)
    requires chores != [] && i < |es| && |Run(es, staff, chores)| == |es|
    requires j < k < |Run(es, staff, chores)[i].List()| && Auto(Run(es, staff, chores)[i].List()[k])
    ensures KeyOf(Run(es, staff, chores)[i].List()[j]) != KeyOf(Run(es, staff, chores)[i].List()[k])
  {
    RunGains(es, staff, chores);
    ManualKeepsManual(es[i].List());
    GrowthRepeatsNoKey(Manual(es[i].List()), Run(es, staff, chores)[i].List(), j, k);
  }

  lemma GrowthRepeatsNoKey(a: seq<Task>, b: seq<Task>, j: nat, k: nat)
    requires Grows(a, b) && (forall t <- a :: !Auto(t)) && j < k < |b| && Auto(b[k])
    ensures KeyOf(b[j]) != KeyOf(b[k])
  {
    assert k >= |a| by {
      assert forall m :: 0 <= m < |a| ==> b[m] == b[..|a|][m] && a[m] in a;
    }
    assert !HasKey(b[..k], KeyOf(b[k]).value);
    assert b[..k][j] == b[j] && b[j] in b[..k];
  }

  // ---- who is chosen ----

  lemma {:induction false} CandidatesExactly(ids: seq<int>, staff: Staff, c: Chore, flags: Flags, own: int -> nat, n: nat)
    requires n <= |ids|
    ensures forall i: nat :: i in Candidates(ids, staff, c, flags, own, n) <==>
              i < n && Scheduled(ids, i) && Eligible(staff, c, flags, ids[i], own(ids[i]))
  {
    if n > 0 {
      CandidatesExactly(ids, staff, c, flags, own, n - 1);
    }
  }

  lemma {:induction false} PreferringExactly(ids: seq<int>, staff: Staff, c: Chore, pool: seq<nat>)
    ensures forall i: nat :: i in Preferring(ids, staff, c, pool) <==> i in pool && i < |ids| && staff.Prefers(ids[i], c)
  {
    if pool != [] {
      var n := |pool| - 1;
      PreferringExactly(ids, staff, c, pool[..n]);
      assert pool == pool[..n] + [pool[n]];
    }
  }

  lemma {:induction false} LeastLoadedIsLeast(pool: seq<nat>, load: nat -> nat)
    requires pool != []
    ensures LeastLoaded(pool, load) in pool
    ensures forall i <- pool :: load(LeastLoaded(pool, load)) <= load(i)
  {
    var n := |pool| - 1;
    if n > 0 {
      LeastLoadedIsLeast(pool[..n], load);
      assert pool == pool[..n] + [pool[n]];
    }
  }

  ghost predicate CanTake(ids: seq<int>, staff: Staff, c: Chore, flags: Flags, own: int -> nat, i: nat) {
    Scheduled(ids, i) && Eligible(staff, c, flags, ids[i], own(ids[i]))
  }

  lemma PoolExactly(ids: seq<int>, staff: Staff, c: Chore, own: int -> nat)
    ensures (exists i: nat :: CanTake(ids, staff, c, Exclusions(c), own, i)) ==>
              forall i: nat :: i in Pool(ids, staff, c, own) <==> CanTake(ids, staff, c, Exclusions(c), own, i)
    ensures forall i <- Pool(ids, staff, c, own) :: CanTake(ids, staff, c, Flags(false, false), own, i)
    ensures forall i, j :: i in Pool(ids, staff, c, own) && j in Pool(ids, staff, c, own) && i != j ==>
              CanTake(ids, staff, c, Exclusions(c), own, i)
  {
    CandidatesExactly(ids, staff, c, Exclusions(c), own, |ids|);
    CandidatesExactly(ids, staff, c, Flags(c.excludeCloser, false), own, |ids|);
    CandidatesExactly(ids, staff, c, Flags(false, c.excludeOpener), own, |ids|);
    CandidatesExactly(ids, staff, c, Flags(false, false), own, |ids|);
    if i: nat :| CanTake(ids, staff, c, Exclusions(c), own, i) {
      assert i in Everyone(ids, staff, c, Exclusions(c), own);
    }
    assert forall s: seq<nat>, i: nat, j: nat :: |s| == 1 && i in s && j in s ==> i == j;
  }

  /**
   Whoever is chosen may take the chore once exclusions are set aside; exclusions are set aside only
   when nobody satisfies them; and unless the chosen one already is the assignee, no preferring
   candidate, or without one no candidate at all, has less to do.
   */
  lemma ChoiceIsFair(ids: seq<int>, staff: Staff, c: Chore, own: int -> nat, load: nat -> nat, i: nat)
    requires Choose(ids, staff, c, own, load) == Some(i)
    ensures CanTake(ids, staff, c, Flags(false, false), own, i)
    ensures !CanTake(ids, staff, c, Exclusions(c), own, i) ==> forall j: nat :: !CanTake(ids, staff, c, Exclusions(c), own, j)
    ensures ids[i] == c.assignedTo
            || (staff.Prefers(ids[i], c)
                && forall j: nat :: CanTake(ids, staff, c, Exclusions(c), own, j) && staff.Prefers(ids[j], c) ==> load(i) <= load(j))
            || (forall j: nat :: CanTake(ids, staff, c, Exclusions(c), own, j) ==> !staff.Prefers(ids[j], c) && load(i) <= load(j))
  {
    PoolExactly(ids, staff, c, own);
    var current := if c.assignedTo > 0 then PositionOf(ids, c.assignedTo) else None;
    if current != Some(i) || !Eligible(staff, c, Exclusions(c), c.assignedTo, own(c.assignedTo)) {
      var pool := Pool(ids, staff, c, own);
      PreferringExactly(ids, staff, c, pool);
      if Preferring(ids, staff, c, pool) != [] {
        LeastLoadedIsLeast(Preferring(ids, staff, c, pool), load);
      } else {
        LeastLoadedIsLeast(pool, load);
      }
    }
  }

  /** A chore goes to nobody only when nobody may take it, and lifting exclusions would not leave exactly one. */
  lemma NobodyChosenExactly(ids: seq<int>, staff: Staff, c: Chore, own: int -> nat, load: nat -> nat)
    ensures Choose(ids, staff, c, own, load).None? <==> Pool(ids, staff, c, own) == []
  {
    PoolExactly(ids, staff, c, own);
    PreferringExactly(ids, staff, c, Pool(ids, staff, c, own));
    if c.assignedTo > 0 && PositionOf(ids, c.assignedTo).Some?
       && Eligible(staff, c, Exclusions(c), c.assignedTo, own(c.assignedTo)) {
      assert CanTake(ids, staff, c, Exclusions(c), own, PositionOf(ids, c.assignedTo).value);
    }
  }

  // ---- who is left alone ----

  ghost predicate LeftAlone(staff: Staff, e: Employee) {
    e.id <= 0 || e.id !in staff.profiles || staff.profiles[e.id].optOut
  }

  lemma {:induction false} FillLeavesAlone(es: seq<Employee>, r: Rules, n: nat, i: nat)
    requires n <= |r.chores| && i < |es| && LeftAlone(r.staff, es[i])
    ensures |Fill(es, r, n)| == |es| && Fill(es, r, n)[i] == es[i]
  {
    if n > 0 {
      FillLeavesAlone(es, r, n - 1, i);
      PlaceLeavesAlone(Fill(es, r, n - 1), r, r.chores[n - 1], i);
    }
  }

  lemma TargetMayTake(es: seq<Employee>, r: Rules, c: Chore)
    requires Target(es, r, c).Some?
    ensures var i := Target(es, r, c).value;
            && es[i].id > 0 && !LeftAlone(r.staff, es[i])
            && Wanted(r.headcount, c, Tally(es, None, WithKey(c.Key())), Tally(es, None, WithCaption(c.caption)), Definitions(r.chores, c.caption))
  {
    ChoiceIsFair(Ids(es), r.staff, c, OwnOf(es, c), LoadOf(es), Target(es, r, c).value);
  }

  lemma PlaceLeavesAlone(es: seq<Employee>, r: Rules, c: Chore, i: nat)
    requires i < |es| && LeftAlone(r.staff, es[i])
    ensures |Place(es, r, c)| == |es| && Place(es, r, c)[i] == es[i]
  {
    if Target(es, r, c).Some? {
      TargetMayTake(es, r, c);
    }
  }

  /** People who opted out, or are not on the staff, end a run with their manual tasks and no other. */
  lemma OptedOutGetNothing(es: seq<Employee>, staff: Staff, chores: seq<Chore>, i: nat)
    requires i < |es| && LeftAlone(staff, es[i]) && chores != []
    ensures |Run(es, staff, chores)| == |es|
    ensures Run(es, staff, chores)[i].List() == Manual(es[i].List())
  {
    if AnyoneThere(es) {
      FillLeavesAlone(Strip(es), RulesFor(staff, chores), |InOrder(chores)|, i);
    }
  }

  // ---- chores for one person only ----

  lemma {:induction false} TallyGiven(es: seq<Employee>, i: nat, t: Task, who: Option<int>, test: Test)
    requires i < |es|
    ensures Tally(Give(es, i, t), who, test) == Tally(es, who, test) + if Matches(es[i], who) && test(t) then 1 else 0
  {
    var n := |es| - 1;
    var given := Give(es, i, t);
    if i < n {
      TallyGiven(es[..n], i, t, who, test);
      assert given[..n] == Give(es[..n], i, t);
    } else {
      var list := es[i].List();
      assert given[..n] == es[..n];
      assert (list + [t])[..|list|] == list;
    }
  }

  ghost predicate ForOne(chores: seq<Chore>, k: Key) {
    forall c <- chores :: c.Key() == k ==> !c.allowMultiple
  }

  lemma {:induction false} FillOnce(es: seq<Employee>, r: Rules, n: nat, k: Key)
    requires n <= |r.chores| && ForOne(r.chores, k)
    ensures OnceMore(Tally(es, None, WithKey(k)), Tally(Fill(es, r, n), None, WithKey(k)))
  {
    if n > 0 {
      FillOnce(es, r, n - 1, k);
      FillStepOnce(es, r, n, k);
    }
  }

  lemma FillStepOnce(es: seq<Employee>, r: Rules, n: nat, k: Key)
    requires 0 < n <= |r.chores| && ForOne(r.chores, k)
    ensures OnceMore(Tally(Fill(es, r, n - 1), None, WithKey(k)), Tally(Fill(es, r, n), None, WithKey(k)))
  {
    PlaceOnce(Fill(es, r, n - 1), r, r.chores[n - 1], k);
  }

  predicate OnceMore(was: nat, now: nat) { now == was || (was == 0 && now == 1) }

  lemma PlaceOnce(es: seq<Employee>, r: Rules, c: Chore, k: Key)
    requires c.Key() == k ==> !c.allowMultiple
    ensures OnceMore(Tally(es, None, WithKey(k)), Tally(Place(es, r, c), None, WithKey(k)))
  {
    var target := Target(es, r, c);
    if target.Some? {
      TargetMayTake(es, r, c);
      TallyGiven(es, target.value, c.NewTask(), None, WithKey(k));
      assert WithKey(k)(c.NewTask()) ==> c.Key() == k;
    }
  }

  /**
   A key whose chores are all for one person is handed out at most once in a run, and not at all
   when it counts as assigned by hand.
   */
  lemma OnePersonChoresOnce(es: seq<Employee>, staff: Staff, chores: seq<Chore>, k: Key)
    requires chores != [] && ForOne(chores, k)
    ensures var byHand, now := Tally(Strip(es), None, WithKey(k)), Tally(Run(es, staff, chores), None, WithKey(k));
            if byHand > 0 then now == byHand else now <= 1
  {
    SortKeeps(chores);
    var sorted := InOrder(chores);
    assert ForOne(sorted, k) by {
      forall c | c in sorted && c.Key() == k ensures !c.allowMultiple {
        assert c in multiset(sorted);
      }
    }
    if AnyoneThere(es) {
      FillOnce(Strip(es), RulesFor(staff, chores), |sorted|, k);
    } else {
      NobodyCounts(Strip(es), WithKey(k));
    }
  }

  lemma {:induction false} NobodyCounts(es: seq<Employee>, test: Test)
    requires forall e <- es :: e.id <= 0
    ensures Tally(es, None, test) == 0
  {
    if es != [] {
      NobodyCounts(es[..|es| - 1], test);
    }
  }

  // ---- the order of chores ----

  predicate Sorted(s: seq<Chore>) { forall i, j :: 0 <= i < j < |s| ==> Before(s[i], s[j]) }

  lemma {:induction false} InsertAdds(s: seq<Chore>, c: Chore)
    ensures multiset(Insert(s, c)) == multiset(s) + multiset{c}
  {
    if s != [] && !Before(s[|s| - 1], c) {
      InsertAdds(s[..|s| - 1], c);
      assert s == s[..|s| - 1] + [s[|s| - 1]];
    }
  }

  lemma {:induction false} InsertKeepsOrder(s: seq<Chore>, c: Chore)
    requires Sorted(s)
    ensures Sorted(Insert(s, c))
  {
    if s != [] && !Before(s[|s| - 1], c) {
      var n := |s| - 1;
      var front := Insert(s[..n], c);
      InsertKeepsOrder(s[..n], c);
      InsertAdds(s[..n], c);
      forall i | 0 <= i < |front| ensures Before(front[i], s[n]) {
        assert front[i] in multiset(front);
        assert front[i] == c || front[i] in s[..n];
      }
    }
  }

  /** The chores are handed out by descending priority and then by id, each of them once. */
  lemma {:induction false} SortKeeps(s: seq<Chore>)
    ensures Sorted(InOrder(s)) && multiset(InOrder(s)) == multiset(s)
  {
    if s != [] {
      var n := |s| - 1;
      SortKeeps(s[..n]);
      InsertKeepsOrder(InOrder(s[..n]), s[n]);
      InsertAdds(InOrder(s[..n]), s[n]);
      assert s == s[..n] + [s[n]];
    }
  }
}
