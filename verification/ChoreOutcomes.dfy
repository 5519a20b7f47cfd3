/**
 Which chores a run hands out, and to whom, told in the fields of the chores, the profiles and the tasks: what is to
 be done at a chore's turn, who may take it, who of them is chosen, and what every turn of a whole run leaves.
 */
module ChoreOutcomes {
  import opened Results
  import opened Chores
  import opened ChoreGuarantees

  // ---- counts as numbers of places ----

  /** The task carries the chore's key: its id if it has one, and otherwise its caption. */
  predicate Bears(t: Task, c: Chore) {
    if c.id > 0 then t.Entry? && t.choreId == c.id
    else t.caption == c.caption && c.caption != "" && !(t.Entry? && t.choreId > 0)
  }

  predicate IsChoreTask(t: Task) { !t.Scalar? && (t.Entry? ==> t.chore) }

  /** The task counts for the chore, by key or by caption. */
  predicate CountsFor(t: Task, c: Chore, byKey: bool) {
    IsChoreTask(t) && if byKey then Bears(t, c) else t.caption == c.caption && c.caption != ""
  }

  /** Where the chore is assigned already: person and task, by position. */
  ghost function Places(es: seq<Employee>, who: Option<int>, c: Chore, byKey: bool): set<(nat, nat)> {
    set i: nat, j: nat | i < |es| && j < |es[i].List()| && es[i].id > 0 && (who.Some? ==> es[i].id == who.value)
                         && CountsFor(es[i].List()[j], c, byKey) :: (i, j)
  }

  ghost function Passing(es: seq<Employee>, who: Option<int>, test: Test): set<(nat, nat)> {
    set i: nat, j: nat | i < |es| && j < |es[i].List()| && es[i].id > 0 && (who.Some? ==> es[i].id == who.value)
                         && test(es[i].List()[j]) :: (i, j)
  }

  ghost function PassingTasks(tasks: seq<Task>, test: Test): set<nat> { set j: nat | j < |tasks| && test(tasks[j]) }

  lemma {:induction false} CountIsPositions(tasks: seq<Task>, test: Test)
    ensures Count(tasks, test) == |PassingTasks(tasks, test)|
  {
    if tasks != [] {
      var n := |tasks| - 1;
      CountIsPositions(tasks[..n], test);
      assert PassingTasks(tasks, test) == PassingTasks(tasks[..n], test) + if test(tasks[n]) then {n} else {};
    }
  }

  ghost function InRow(n: nat, js: set<nat>): set<(nat, nat)> { set j | j in js :: (n, j) }

  lemma {:induction false} RowIsAsLarge(n: nat, js: set<nat>)
    ensures |InRow(n, js)| == |js|
  {
    if js != {} {
      var j :| j in js;
      RowIsAsLarge(n, js - {j});
      assert InRow(n, js) == InRow(n, js - {j}) + {(n, j)};
    }
  }

  ghost function LastRow(front: seq<Employee>, last: Employee, who: Option<int>, test: Test): set<(nat, nat)> {
    if Matches(last, who) then InRow(|front|, PassingTasks(last.List(), test)) else {}
  }

  lemma PassingWithLast(front: seq<Employee>, last: Employee, who: Option<int>, test: Test, p: (nat, nat))
    ensures p in Passing(front + [last], who, test) <==> p in Passing(front, who, test) || p in LastRow(front, last, who, test)
    ensures !(p in Passing(front, who, test) && p in LastRow(front, last, who, test))
  {
    var all := front + [last];
    if p.0 < |front| {
      assert all[p.0] == front[p.0];
    }
  }

  lemma PassingAdds(front: seq<Employee>, last: Employee, who: Option<int>, test: Test)
    ensures |Passing(front + [last], who, test)| == |Passing(front, who, test)| + |LastRow(front, last, who, test)|
  {
    var all, before, row := Passing(front + [last], who, test), Passing(front, who, test), LastRow(front, last, who, test);
    forall p ensures p in all <==> p in before || p in row
             ensures !(p in before && p in row)
    {
      PassingWithLast(front, last, who, test, p);
    }
    assert all == before + row && before !! row;
  }

  lemma {:induction false} TallyIsPlaces(es: seq<Employee>, who: Option<int>, test: Test)
    ensures Tally(es, who, test) == |Passing(es, who, test)|
  {
    if es != [] {
      var n := |es| - 1;
      TallyIsPlaces(es[..n], who, test);
      assert es == es[..n] + [es[n]];
      PassingAdds(es[..n], es[n], who, test);
      CountIsPositions(es[n].List(), test);
      RowIsAsLarge(n, PassingTasks(es[n].List(), test));
    }
  }

  lemma TestsTell(c: Chore, t: Task)
    ensures WithKey(c.Key())(t) <==> CountsFor(t, c, true)
    ensures WithCaption(c.caption)(t) <==> CountsFor(t, c, false)
    ensures KeyOf(t) == Some(c.Key()) <==> Bears(t, c)
  {
  }

  lemma CountsArePlaces(es: seq<Employee>, who: Option<int>, c: Chore)
    ensures Tally(es, who, WithKey(c.Key())) == |Places(es, who, c, true)|
    ensures Tally(es, who, WithCaption(c.caption)) == |Places(es, who, c, false)|
  {
    TallyIsPlaces(es, who, WithKey(c.Key()));
    TallyIsPlaces(es, who, WithCaption(c.caption));
    assert Places(es, who, c, true) == Passing(es, who, WithKey(c.Key()));
    assert Places(es, who, c, false) == Passing(es, who, WithCaption(c.caption));
  }

  ghost function DefinedAt(chores: seq<Chore>, caption: string): set<nat> {
    set i: nat | i < |chores| && chores[i].caption == caption
  }

  lemma {:induction false} DefinitionsAreCounted(chores: seq<Chore>, caption: string)
    ensures Definitions(chores, caption) == |DefinedAt(chores, caption)|
  {
    if chores != [] {
      var n := |chores| - 1;
      DefinitionsAreCounted(chores[..n], caption);
      assert DefinedAt(chores, caption) == DefinedAt(chores[..n], caption) + if chores[n].caption == caption then {n} else {};
    }
  }

  /** How much one has to do: every task but bare values. */
  ghost function Burden(e: Employee): nat { |set j: nat | j < |e.List()| && !e.List()[j].Scalar?| }

  lemma LoadIsBurden(e: Employee)
    ensures Load(e) == Burden(e)
  {
    CountIsPositions(e.List(), (t: Task) => !t.Scalar?);
    assert PassingTasks(e.List(), (t: Task) => !t.Scalar?) == set j: nat | j < |e.List()| && !e.List()[j].Scalar?;
  }

  // ---- what is to be done, and who may do it ----

  /** A positive limit is a limit; none and zero are not. */
  predicate Below(count: nat, limit: Option<int>) { limit == None || limit.value <= 0 || count < limit.value }

  /** The chore is to be handed out at this turn. */
  ghost predicate ToDo(es: seq<Employee>, headcount: nat, chores: seq<Chore>, c: Chore) {
    && c.enabled && c.caption != ""
    && (!c.allowMultiple ==> Places(es, None, c, true) == {} && |Places(es, None, c, false)| < |DefinedAt(chores, c.caption)|)
    && Below(|Places(es, None, c, false)|, c.maxPerDay)
    && (c.minStaff == None || c.minStaff.value <= headcount || c.minStaff.value <= 0)
  }

  /** The person at this position may take the chore, with the exclusions that apply. */
  ghost predicate MayTake(es: seq<Employee>, staff: Staff, c: Chore, noCloser: bool, noOpener: bool, i: nat) {
    && i < |es| && es[i].id > 0 && (forall j :: i < j < |es| ==> es[j].id != es[i].id)
    && es[i].id in staff.profiles
    && (var profile := staff.profiles[es[i].id];
        !profile.optOut && (noCloser ==> !profile.closer) && (noOpener ==> !profile.opener))
    && Below(|Places(es, Some(es[i].id), c, true)|, c.maxPerShift) && Below(|Places(es, Some(es[i].id), c, false)|, c.maxPerShift)
    && Below(|Places(es, Some(es[i].id), c, true)|, c.maxPerEmployeePerDay)
    && Below(|Places(es, Some(es[i].id), c, false)|, c.maxPerEmployeePerDay)
  }

  /** The same with the chore's own exclusions. */
  ghost predicate Fits(es: seq<Employee>, staff: Staff, c: Chore, i: nat) {
    MayTake(es, staff, c, c.excludeCloser, c.excludeOpener, i)
  }

  /** The person asked for this chore, by its id or by its caption. */
  predicate Wants(es: seq<Employee>, staff: Staff, c: Chore, i: nat) {
    && i < |es| && es[i].id in staff.preferences
    && var p := staff.preferences[es[i].id]; (c.id > 0 && c.id in p.ids) || c.caption in p.captions
  }

  /** Who asked for the chore comes first, then who has less to do, then who is listed first. */
  ghost predicate Precedes(es: seq<Employee>, staff: Staff, c: Chore, i: nat, j: nat)
    requires i < |es| && j < |es|
  {
    if Wants(es, staff, c, i) != Wants(es, staff, c, j) then Wants(es, staff, c, i)
    else Burden(es[i]) < Burden(es[j]) || (Burden(es[i]) == Burden(es[j]) && i <= j)
  }

  ghost predicate IsAssignee(es: seq<Employee>, staff: Staff, c: Chore, i: nat) {
    Fits(es, staff, c, i) && es[i].id == c.assignedTo
  }

  /** The chosen one of those who fit: the assignee if he does, and otherwise the first by preference, burden and place. */
  ghost predicate Chosen(es: seq<Employee>, staff: Staff, c: Chore, i: nat) {
    && Fits(es, staff, c, i)
    && (IsAssignee(es, staff, c, i)
        || ((forall j: nat :: !IsAssignee(es, staff, c, j)) && forall j: nat :: Fits(es, staff, c, j) ==> Precedes(es, staff, c, i, j)))
  }

  ghost predicate NobodyFits(es: seq<Employee>, staff: Staff, c: Chore) { forall i: nat :: !Fits(es, staff, c, i) }

  /** The one person who may take the chore under these exclusions. */
  ghost predicate Alone(es: seq<Employee>, staff: Staff, c: Chore, noCloser: bool, noOpener: bool, i: nat) {
    MayTake(es, staff, c, noCloser, noOpener, i) && forall j: nat :: MayTake(es, staff, c, noCloser, noOpener, j) ==> j == i
  }

  ghost predicate HasOne(es: seq<Employee>, staff: Staff, c: Chore, noCloser: bool, noOpener: bool) {
    exists i: nat :: Alone(es, staff, c, noCloser, noOpener, i)
  }

  /** Where nobody fits: whom the lifting of an exclusion leaves as the only one, openers first, then closers, then both. */
  ghost predicate Lifted(es: seq<Employee>, staff: Staff, c: Chore, i: nat) {
    if c.excludeOpener && HasOne(es, staff, c, c.excludeCloser, false) then Alone(es, staff, c, c.excludeCloser, false, i)
    else if c.excludeCloser && HasOne(es, staff, c, false, c.excludeOpener) then Alone(es, staff, c, false, c.excludeOpener, i)
    else c.excludeOpener && c.excludeCloser && Alone(es, staff, c, false, false, i)
  }

  /** The person the chore goes to at its turn. */
  ghost predicate GoesTo(es: seq<Employee>, staff: Staff, c: Chore, i: nat) {
    if NobodyFits(es, staff, c) then Lifted(es, staff, c, i) else Chosen(es, staff, c, i)
  }

  // ---- eligibility in fields ----

  lemma FitsExactly(es: seq<Employee>, staff: Staff, c: Chore, flags: Flags, i: nat)
    ensures CanTake(Ids(es), staff, c, flags, OwnOf(es, c), i) <==> MayTake(es, staff, c, flags.noCloser, flags.noOpener, i)
  {
    if i < |es| {
      CountsArePlaces(es, Some(es[i].id), c);
      assert forall j :: i < j < |es| ==> Ids(es)[j] == es[j].id;
    }
  }

  lemma WantedExactly(es: seq<Employee>, headcount: nat, chores: seq<Chore>, c: Chore)
    ensures Wanted(headcount, c, Tally(es, None, WithKey(c.Key())), Tally(es, None, WithCaption(c.caption)), Definitions(chores, c.caption))
            <==> ToDo(es, headcount, chores, c)
  {
    CountsArePlaces(es, None, c);
    DefinitionsAreCounted(chores, c.caption);
  }

  // ---- the choice in fields ----

  ghost predicate Ascending(s: seq<nat>) { forall i, j :: 0 <= i < j < |s| ==> s[i] < s[j] }

  lemma {:induction false} CandidatesAscend(ids: seq<int>, staff: Staff, c: Chore, flags: Flags, own: int -> nat, n: nat)
    requires n <= |ids|
    ensures Ascending(Candidates(ids, staff, c, flags, own, n))
  {
    if n > 0 {
      var front := Candidates(ids, staff, c, flags, own, n - 1);
      CandidatesAscend(ids, staff, c, flags, own, n - 1);
      CandidatesExactly(ids, staff, c, flags, own, n - 1);
      assert forall i :: 0 <= i < |front| ==> front[i] in front;
    }
  }

  lemma {:induction false} PreferringAscends(ids: seq<int>, staff: Staff, c: Chore, pool: seq<nat>)
    requires Ascending(pool)
    ensures Ascending(Preferring(ids, staff, c, pool))
  {
    if pool != [] {
      var n := |pool| - 1;
      var front := Preferring(ids, staff, c, pool[..n]);
      PreferringAscends(ids, staff, c, pool[..n]);
      PreferringExactly(ids, staff, c, pool[..n]);
      forall i | 0 <= i < |front| ensures front[i] < pool[n] {
        assert front[i] in front;
      }
    }
  }

  /** Of the least loaded the first is taken. */
  lemma {:induction false} LeastLoadedIsFirst(pool: seq<nat>, load: nat -> nat)
    requires pool != [] && Ascending(pool)
    ensures LeastLoaded(pool, load) in pool
    ensures forall j <- pool :: load(LeastLoaded(pool, load)) < load(j)
                                || (load(LeastLoaded(pool, load)) == load(j) && LeastLoaded(pool, load) <= j)
  {
    var n := |pool| - 1;
    if n > 0 {
      LeastLoadedIsFirst(pool[..n], load);
      assert pool == pool[..n] + [pool[n]];
      forall j | j in pool[..n] ensures j < pool[n] {
        var k :| 0 <= k < n && pool[k] == j;
      }
    }
  }

  lemma EveryoneFits(es: seq<Employee>, staff: Staff, c: Chore, flags: Flags)
    ensures var all := Everyone(Ids(es), staff, c, flags, OwnOf(es, c));
            Ascending(all) && forall i: nat :: i in all <==> MayTake(es, staff, c, flags.noCloser, flags.noOpener, i)
  {
    CandidatesAscend(Ids(es), staff, c, flags, OwnOf(es, c), |es|);
    CandidatesExactly(Ids(es), staff, c, flags, OwnOf(es, c), |es|);
    forall i: nat ensures i in Everyone(Ids(es), staff, c, flags, OwnOf(es, c)) <==> MayTake(es, staff, c, flags.noCloser, flags.noOpener, i) {
      FitsExactly(es, staff, c, flags, i);
    }
  }

  lemma OneIsAlone(es: seq<Employee>, staff: Staff, c: Chore, flags: Flags)
    ensures var all := Everyone(Ids(es), staff, c, flags, OwnOf(es, c));
            && (|all| == 1 <==> HasOne(es, staff, c, flags.noCloser, flags.noOpener))
            && (|all| == 1 ==> forall i: nat :: Alone(es, staff, c, flags.noCloser, flags.noOpener, i) <==> i == all[0])
  {
    var all := Everyone(Ids(es), staff, c, flags, OwnOf(es, c));
    EveryoneFits(es, staff, c, flags);
    if |all| == 1 {
      assert all[0] in all;
      assert Alone(es, staff, c, flags.noCloser, flags.noOpener, all[0]);
    }
    assert |all| > 1 ==> all[0] < all[1];
    if i: nat :| Alone(es, staff, c, flags.noCloser, flags.noOpener, i) {
      assert i in all;
      forall k | 0 <= k < |all| ensures all[k] == i {
        assert all[k] in all;
      }
    }
  }

  /** Least burdened of a pool of people who all want the chore, or of whom none does. */
  lemma FirstOfPool(es: seq<Employee>, staff: Staff, c: Chore, pool: seq<nat>)
    requires pool != [] && Ascending(pool) && forall i <- pool :: i < |es|
    requires forall i <- pool, j <- pool :: Wants(es, staff, c, i) == Wants(es, staff, c, j)
    ensures var best := LeastLoaded(pool, LoadOf(es));
            best in pool && forall j <- pool :: Precedes(es, staff, c, best, j)
  {
    LeastLoadedIsFirst(pool, LoadOf(es));
    forall i | i in pool ensures LoadOf(es)(i) == Burden(es[i]) {
      LoadIsBurden(es[i]);
    }
  }

  /** The best of everyone who fits: of those who want the chore, if any does. */
  function BestOf(es: seq<Employee>, staff: Staff, c: Chore, pool: seq<nat>): nat
    requires pool != []
  {
    var preferred := Preferring(Ids(es), staff, c, pool);
    LeastLoaded(if preferred != [] then preferred else pool, LoadOf(es))
  }

  lemma BestPrecedes(es: seq<Employee>, staff: Staff, c: Chore, pool: seq<nat>)
    requires pool != [] && Ascending(pool) && forall i <- pool :: i < |es|
    ensures BestOf(es, staff, c, pool) in pool
    ensures forall j <- pool :: Precedes(es, staff, c, BestOf(es, staff, c, pool), j)
  {
    var preferred := Preferring(Ids(es), staff, c, pool);
    PreferringExactly(Ids(es), staff, c, pool);
    PreferringAscends(Ids(es), staff, c, pool);
    assert forall i <- pool :: i in preferred <==> Wants(es, staff, c, i);
    if preferred != [] {
      FirstOfPool(es, staff, c, preferred);
    } else {
      FirstOfPool(es, staff, c, pool);
    }
  }

  lemma AssigneeExactly(es: seq<Employee>, staff: Staff, c: Chore, i: nat)
    ensures IsAssignee(es, staff, c, i) <==>
              && c.assignedTo > 0 && PositionOf(Ids(es), c.assignedTo) == Some(i)
              && Eligible(staff, c, Exclusions(c), c.assignedTo, OwnOf(es, c)(c.assignedTo))
  {
    FitsExactly(es, staff, c, Exclusions(c), i);
    var at := PositionOf(Ids(es), c.assignedTo);
    if at.Some? {
      FitsExactly(es, staff, c, Exclusions(c), at.value);
      assert forall j :: at.value < j < |es| ==> Ids(es)[j] == es[j].id;
    }
    if i < |es| {
      assert Ids(es)[i] == es[i].id;
    }
  }

  /** Where somebody fits, the chosen one does, and is the assignee or comes before everyone else who fits. */
  lemma SomebodyIsChosen(es: seq<Employee>, staff: Staff, c: Chore)
    requires !NobodyFits(es, staff, c)
    ensures var choice := Choose(Ids(es), staff, c, OwnOf(es, c), LoadOf(es));
            choice.Some? && Chosen(es, staff, c, choice.value)
  {
    var all := Everyone(Ids(es), staff, c, Exclusions(c), OwnOf(es, c));
    EveryoneFits(es, staff, c, Exclusions(c));
    var i: nat :| Fits(es, staff, c, i);
    assert i in all;
    forall j: nat ensures IsAssignee(es, staff, c, j) <==>
                            && c.assignedTo > 0 && PositionOf(Ids(es), c.assignedTo) == Some(j)
                            && Eligible(staff, c, Exclusions(c), c.assignedTo, OwnOf(es, c)(c.assignedTo))
    {
      AssigneeExactly(es, staff, c, j);
    }
    BestPrecedes(es, staff, c, all);
  }

  /** Where nobody fits, the one that the lifting of exclusions leaves is chosen, or nobody. */
  lemma OnlyTheLiftedIsChosen(es: seq<Employee>, staff: Staff, c: Chore, i: nat)
    requires NobodyFits(es, staff, c)
    ensures Choose(Ids(es), staff, c, OwnOf(es, c), LoadOf(es)) == Some(i) <==> Lifted(es, staff, c, i)
  {
    var own := OwnOf(es, c);
    EveryoneFits(es, staff, c, Exclusions(c));
    var base := Everyone(Ids(es), staff, c, Exclusions(c), own);
    assert base != [] ==> base[0] in base && Fits(es, staff, c, base[0]);
    OneIsAlone(es, staff, c, Flags(c.excludeCloser, false));
    OneIsAlone(es, staff, c, Flags(false, c.excludeOpener));
    OneIsAlone(es, staff, c, Flags(false, false));
    var at := PositionOf(Ids(es), c.assignedTo);
    if at.Some? {
      AssigneeExactly(es, staff, c, at.value);
    }
    OneOfOne(es, staff, c, Pool(Ids(es), staff, c, own));
  }

  lemma OneOfOne(es: seq<Employee>, staff: Staff, c: Chore, pool: seq<nat>)
    requires |pool| <= 1
    ensures pool != [] ==> BestOf(es, staff, c, pool) == pool[0]
  {
    if pool != [] {
      PreferringExactly(Ids(es), staff, c, pool);
      var preferred := Preferring(Ids(es), staff, c, pool);
      assert pool[..0] == [] && Preferring(Ids(es), staff, c, []) == [];
    }
  }

  // ---- one turn ----

  /** The chore is added to this person's tasks, as an automatic one, and nothing else changes. */
  predicate HandedTo(es: seq<Employee>, out: seq<Employee>, i: nat, c: Chore) {
    && i < |es|
    && out == es[i := Employee(es[i].id, Some(es[i].List() + [Entry(true, true, if c.id > 0 then c.id else 0, c.caption)]))]
  }

  predicate HoldsKey(e: Employee, c: Chore) { exists t <- e.List() :: Bears(t, c) }

  /** What a turn leaves: a chore to be done goes to its person, unless that person holds its key already. */
  ghost predicate TurnTold(es: seq<Employee>, out: seq<Employee>, staff: Staff, headcount: nat, chores: seq<Chore>, c: Chore) {
    && (forall i: nat :: ToDo(es, headcount, chores, c) && GoesTo(es, staff, c, i) && i < |es| && !HoldsKey(es[i], c) ==>
          HandedTo(es, out, i, c))
    && ((forall i: nat :: !(ToDo(es, headcount, chores, c) && GoesTo(es, staff, c, i) && i < |es| && !HoldsKey(es[i], c))) ==>
          out == es)
  }

  lemma ChoiceGoesTo(es: seq<Employee>, staff: Staff, c: Chore, i: nat)
    ensures Choose(Ids(es), staff, c, OwnOf(es, c), LoadOf(es)) == Some(i) <==> GoesTo(es, staff, c, i)
  {
    if NobodyFits(es, staff, c) {
      OnlyTheLiftedIsChosen(es, staff, c, i);
    } else {
      SomebodyIsChosen(es, staff, c);
      var choice := Choose(Ids(es), staff, c, OwnOf(es, c), LoadOf(es)).value;
      ChosenIsOne(es, staff, c, choice, i);
    }
  }

  lemma ChosenIsOne(es: seq<Employee>, staff: Staff, c: Chore, i: nat, j: nat)
    ensures Chosen(es, staff, c, i) && Chosen(es, staff, c, j) ==> i == j
  {
  }

  lemma KeyInFields(e: Employee, c: Chore)
    ensures HasKey(e.List(), c.Key()) <==> HoldsKey(e, c)
  {
    forall t ensures KeyOf(t) == Some(c.Key()) <==> Bears(t, c) {
      TestsTell(c, t);
    }
  }

  lemma GoesToIsThere(es: seq<Employee>, staff: Staff, c: Chore, i: nat)
    requires GoesTo(es, staff, c, i)
    ensures i < |es|
  {
  }

  /**
   What a turn leaves, in full. Nothing changes unless the chore is enabled, has a caption, is not covered yet and is
   within its daily maximum and its minimum of staff; then it goes to the chosen person, who gets one new task.
   */
  lemma TurnIsTold(es: seq<Employee>, r: Rules, c: Chore)
    ensures TurnTold(es, Place(es, r, c), r.staff, r.headcount, r.chores, c)
  {
    var choice := Choose(Ids(es), r.staff, c, OwnOf(es, c), LoadOf(es));
    WantedExactly(es, r.headcount, r.chores, c);
    forall i: nat ensures choice == Some(i) <==> GoesTo(es, r.staff, c, i) {
      ChoiceGoesTo(es, r.staff, c, i);
    }
    forall i: nat | i < |es| ensures HasKey(es[i].List(), c.Key()) <==> HoldsKey(es[i], c) {
      KeyInFields(es[i], c);
    }
  }

  /**
   An enabled chore with a caption, to be done and within its limits, is handed to somebody whenever somebody fits,
   unless one of those who fit holds its key already.
   */
  lemma SomebodyGetsIt(es: seq<Employee>, r: Rules, c: Chore)
    requires ToDo(es, r.headcount, r.chores, c) && !NobodyFits(es, r.staff, c)
    requires forall i: nat :: Fits(es, r.staff, c, i) ==> !HoldsKey(es[i], c)
    ensures exists i: nat :: Fits(es, r.staff, c, i) && HandedTo(es, Place(es, r, c), i, c)
  {
    SomebodyIsChosen(es, r.staff, c);
    var i := Choose(Ids(es), r.staff, c, OwnOf(es, c), LoadOf(es)).value;
    assert GoesTo(es, r.staff, c, i);
    TurnIsTold(es, r, c);
  }

  /** A turn hands the chore out exactly when it is to be done and the person it goes to does not hold its key. */
  lemma HandedOutExactly(es: seq<Employee>, r: Rules, c: Chore, i: nat)
    ensures HandedTo(es, Place(es, r, c), i, c) <==>
              ToDo(es, r.headcount, r.chores, c) && GoesTo(es, r.staff, c, i) && !HoldsKey(es[i], c)
  {
    TurnIsTold(es, r, c);
    if GoesTo(es, r.staff, c, i) {
      GoesToIsThere(es, r.staff, c, i);
    }
    if HandedTo(es, Place(es, r, c), i, c) {
      HandedIsAChange(es, Place(es, r, c), i, c);
      var j: nat :| ToDo(es, r.headcount, r.chores, c) && GoesTo(es, r.staff, c, j) && j < |es| && !HoldsKey(es[j], c);
      assert HandedTo(es, Place(es, r, c), j, c);
      HandedOnce(es, Place(es, r, c), i, j, c);
    }
  }

  lemma HandedIsAChange(es: seq<Employee>, out: seq<Employee>, i: nat, c: Chore)
    requires HandedTo(es, out, i, c)
    ensures out != es
  {
    assert |out[i].List()| == |es[i].List()| + 1;
  }

  lemma HandedOnce(es: seq<Employee>, out: seq<Employee>, i: nat, j: nat, c: Chore)
    requires HandedTo(es, out, i, c) && HandedTo(es, out, j, c)
    ensures i == j
  {
    assert |out[i].List()| == |es[i].List()| + 1;
  }

  /**
   Somebody who fits and lacks the key is not enough: the chosen one may hold the key, and then the chore stays
   unassigned. Here the second of two people fits as well, but has more to do.
   */
  lemma HolderBlocksTheChore()
    ensures var sweep := Chore(7, "sweep", 0, true, true, None, None, None, None, false, false, 0);
            var es := [Employee(1, Some([Entry(true, false, 7, "sweep")])), Employee(2, Some([Text("till"), Text("stock")]))];
            var plain := Profile(false, false, false);
            var r := Rules(Staff(map[1 := plain, 2 := plain], map[]), 2, [sweep]);
            && ToDo(es, 2, [sweep], sweep)
            && Fits(es, r.staff, sweep, 1) && !HoldsKey(es[1], sweep)
            && Place(es, r, sweep) == es
  {
    var sweep := Chore(7, "sweep", 0, true, true, None, None, None, None, false, false, 0);
    var held, other := [Entry(true, false, 7, "sweep")], [Text("till"), Text("stock")];
    var es := [Employee(1, Some(held)), Employee(2, Some(other))];
    var plain := Profile(false, false, false);
    var r := Rules(Staff(map[1 := plain, 2 := plain], map[]), 2, [sweep]);
    BurdenOfTwo(es[0], es[1]);
    assert Fits(es, r.staff, sweep, 0) && Fits(es, r.staff, sweep, 1);
    assert Chosen(es, r.staff, sweep, 0);
    assert held[0] in held && Bears(held[0], sweep);
    TurnIsTold(es, r, sweep);
    forall i: nat | GoesTo(es, r.staff, sweep, i) ensures i == 0 {
      ChosenIsOne(es, r.staff, sweep, 0, i);
    }
  }

  lemma BurdenOfTwo(a: Employee, b: Employee)
    requires |a.List()| == 1 && !a.List()[0].Scalar?
    requires |b.List()| == 2 && !b.List()[0].Scalar? && !b.List()[1].Scalar?
    ensures Burden(a) == 1 && Burden(b) == 2
  {
    assert (set j: nat | j < |a.List()| && !a.List()[j].Scalar?) == {0};
    assert (set j: nat | j < |b.List()| && !b.List()[j].Scalar?) == {0, 1};
  }

  // ---- whole runs ----

  /** Everyone's list without automatic tasks, in order. */
  function ByHand(tasks: seq<Task>): seq<Task> {
    if tasks == [] then []
    else (if tasks[0].Entry? && tasks[0].auto then [] else [tasks[0]]) + ByHand(tasks[1..])
  }

  lemma {:induction false} ManualAndThen(t: Task, tasks: seq<Task>)
    ensures Manual([t] + tasks) == (if t.Entry? && t.auto then [] else [t]) + Manual(tasks)
  {
    if tasks != [] {
      var n := |tasks| - 1;
      ManualAndThen(t, tasks[..n]);
      assert ([t] + tasks)[..n + 1] == [t] + tasks[..n];
    } else {
      assert [t][..0] == [] && [t] + tasks == [t];
    }
  }

  lemma {:induction false} ManualIsByHand(tasks: seq<Task>)
    ensures Manual(tasks) == ByHand(tasks)
  {
    if tasks != [] {
      ManualIsByHand(tasks[1..]);
      ManualAndThen(tasks[0], tasks[1..]);
      assert tasks == [tasks[0]] + tasks[1..];
    }
  }

  /** The schedule before the first turn: everyone as before, with the manual tasks alone. */
  predicate Cleared(es: seq<Employee>, out: seq<Employee>) {
    |out| == |es| && forall i :: 0 <= i < |es| ==> out[i] == Employee(es[i].id, Some(ByHand(es[i].List())))
  }

  lemma StripClears(es: seq<Employee>)
    ensures Cleared(es, Strip(es))
  {
    forall i | 0 <= i < |es| ensures Strip(es)[i] == Employee(es[i].id, Some(ByHand(es[i].List()))) {
      ManualIsByHand(es[i].List());
    }
  }

  ghost predicate TurnsTold(states: seq<seq<Employee>>, staff: Staff, headcount: nat, chores: seq<Chore>) {
    |states| == |chores| + 1 && forall n :: 0 <= n < |chores| ==> TakesTurn(states, staff, headcount, chores, n)
  }

  ghost predicate TakesTurn(states: seq<seq<Employee>>, staff: Staff, headcount: nat, chores: seq<Chore>, n: nat)
    requires n < |chores| && |states| == |chores| + 1
  {
    TurnTold(states[n], states[n + 1], staff, headcount, chores, chores[n])
  }

  ghost function States(es: seq<Employee>, r: Rules): (s: seq<seq<Employee>>)
    ensures |s| == |r.chores| + 1
  {
    seq(|r.chores| + 1, n requires 0 <= n <= |r.chores| => Fill(es, r, n))
  }

  lemma FillIsATurn(es: seq<Employee>, r: Rules, n: nat)
    requires n < |r.chores|
    ensures TurnTold(Fill(es, r, n), Fill(es, r, n + 1), r.staff, r.headcount, r.chores, r.chores[n])
  {
    var mid := Fill(es, r, n);
    assert Fill(es, r, n + 1) == Place(mid, r, r.chores[n]);
    TurnIsTold(mid, r, r.chores[n]);
  }

  lemma TurnTaken(states: seq<seq<Employee>>, staff: Staff, headcount: nat, chores: seq<Chore>, n: nat,
                  before: seq<Employee>, after: seq<Employee>)
    requires n < |chores| && |states| == |chores| + 1 && states[n] == before && states[n + 1] == after
    requires TurnTold(before, after, staff, headcount, chores, chores[n])
    ensures TakesTurn(states, staff, headcount, chores, n)
  {
  }

  lemma StatesAt(es: seq<Employee>, r: Rules, n: nat, out: seq<Employee>)
    requires n <= |r.chores| && out == Fill(es, r, n)
    ensures States(es, r)[n] == out
  {
  }

  lemma StatesTakeTurns(es: seq<Employee>, r: Rules, n: nat)
    requires n < |r.chores|
    ensures TakesTurn(States(es, r), r.staff, r.headcount, r.chores, n)
  {
    StatesAt(es, r, n, Fill(es, r, n));
    StatesAt(es, r, n + 1, Fill(es, r, n + 1));
    FillIsATurn(es, r, n);
    TurnTaken(States(es, r), r.staff, r.headcount, r.chores, n, Fill(es, r, n), Fill(es, r, n + 1));
  }

  lemma StatesAreTurns(es: seq<Employee>, r: Rules)
    ensures TurnsTold(States(es, r), r.staff, r.headcount, r.chores)
  {
    forall n: nat | n < |r.chores| ensures TakesTurn(States(es, r), r.staff, r.headcount, r.chores, n) {
      StatesTakeTurns(es, r, n);
    }
  }

  /**
   A run in full: automatic tasks go, and then every chore has one turn, by descending priority and by id, with the
   number of people who have not opted out as the headcount. Without chores nothing changes, and without people
   nothing is handed out.
   */
  lemma RunIsTold(es: seq<Employee>, staff: Staff, chores: seq<Chore>) returns (order: seq<Chore>, states: seq<seq<Employee>>)
    requires chores != [] && exists e <- es :: e.id > 0
    ensures multiset(order) == multiset(chores)
    ensures forall i, j :: 0 <= i < j < |order| ==>
              order[i].priority > order[j].priority || (order[i].priority == order[j].priority && order[i].id <= order[j].id)
    ensures TurnsTold(states, staff, |set id | id in staff.profiles && !staff.profiles[id].optOut|, order)
    ensures Cleared(es, states[0]) && states[|order|] == Run(es, staff, chores)
  {
    var r := RulesFor(staff, chores);
    order := r.chores;
    states := States(Strip(es), r);
    SortKeeps(chores);
    StripClears(es);
    StatesAreTurns(Strip(es), r);
    assert forall i, j :: 0 <= i < j < |order| ==> Before(order[i], order[j]);
  }

  /** Without chores nothing changes, and without people only the automatic tasks go. */
  lemma QuietRunIsTold(es: seq<Employee>, staff: Staff, chores: seq<Chore>)
    ensures chores == [] ==> Run(es, staff, chores) == es
    ensures chores != [] && (forall e <- es :: e.id <= 0) ==> Cleared(es, Run(es, staff, chores))
  {
    StripClears(es);
  }

  // ---- nothing is added that was not asked for ----

  /** An enabled chore of the list has this automatic task. */
  predicate AskedFor(chores: seq<Chore>, t: Task) {
    exists c <- chores :: c.enabled && c.caption != "" && t == Entry(true, true, if c.id > 0 then c.id else 0, c.caption)
  }

  /** Nobody comes or goes, and every task that is new was asked for. */
  ghost predicate AddsAsked(es: seq<Employee>, out: seq<Employee>, chores: seq<Chore>) {
    |out| == |es| && forall i, t :: 0 <= i < |es| && t in out[i].List() ==> t in es[i].List() || AskedFor(chores, t)
  }

  lemma TurnAddsAsked(es: seq<Employee>, r: Rules, c: Chore)
    requires c in r.chores
    ensures AddsAsked(es, Place(es, r, c), r.chores)
  {
    var out := Place(es, r, c);
    TurnIsTold(es, r, c);
    PlaceGains(es, r, c);
    if j: nat :| ToDo(es, r.headcount, r.chores, c) && GoesTo(es, r.staff, c, j) && j < |es| && !HoldsKey(es[j], c) {
      HandingAddsAsked(es, out, r.chores, c, j);
    }
  }

  lemma HandingAddsAsked(es: seq<Employee>, out: seq<Employee>, chores: seq<Chore>, c: Chore, j: nat)
    requires c in chores && c.enabled && c.caption != "" && HandedTo(es, out, j, c)
    ensures AddsAsked(es, out, chores)
  {
  }

  lemma AskedAddsUp(es: seq<Employee>, mid: seq<Employee>, out: seq<Employee>, chores: seq<Chore>)
    requires AddsAsked(es, mid, chores) && AddsAsked(mid, out, chores)
    ensures AddsAsked(es, out, chores)
  {
  }

  lemma FillStepAddsAsked(es: seq<Employee>, r: Rules, n: nat)
    requires 0 < n <= |r.chores|
    ensures AddsAsked(Fill(es, r, n - 1), Fill(es, r, n), r.chores)
  {
    TurnAddsAsked(Fill(es, r, n - 1), r, r.chores[n - 1]);
  }

  lemma {:induction false} FillAddsAsked(es: seq<Employee>, r: Rules, n: nat)
    requires n <= |r.chores|
    ensures AddsAsked(es, Fill(es, r, n), r.chores)
  {
    if n > 0 {
      FillAddsAsked(es, r, n - 1);
      FillStepAddsAsked(es, r, n);
      AskedAddsUp(es, Fill(es, r, n - 1), Fill(es, r, n), r.chores);
    }
  }

  lemma SameChoresAskTheSame(order: seq<Chore>, chores: seq<Chore>, t: Task)
    requires multiset(order) == multiset(chores) && AskedFor(order, t)
    ensures AskedFor(chores, t)
  {
    var c :| c in order && c.enabled && c.caption != "" && t == Entry(true, true, if c.id > 0 then c.id else 0, c.caption);
    assert c in multiset(order) && c in chores;
  }

  lemma ManualTasksAreNotAuto(es: seq<Employee>, i: nat, t: Task)
    requires i < |es| && t in Strip(es)[i].List()
    ensures !(t.Entry? && t.auto)
  {
    ManualKeepsManual(es[i].List());
  }

  /** Every automatic task that a run leaves is that of an enabled chore with a caption. */
  lemma NothingUnasked(es: seq<Employee>, staff: Staff, chores: seq<Chore>, i: nat, t: Task)
    requires chores != [] && i < |es| && |Run(es, staff, chores)| == |es|
    requires t in Run(es, staff, chores)[i].List() && t.Entry? && t.auto
    ensures AskedFor(chores, t)
  {
    var r := RulesFor(staff, chores);
    SortKeeps(chores);
    if t in Strip(es)[i].List() {
      ManualTasksAreNotAuto(es, i, t);
    } else {
      FillAddsAsked(Strip(es), r, |r.chores|);
      SameChoresAskTheSame(r.chores, chores, t);
    }
  }
}
