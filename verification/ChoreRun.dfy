/**
 Chore assignment as it is carried out: the schedule is edited in place, and the counts are
 kept in maps that every assignment updates instead of being taken anew.
 */
module ChoreRun {
  import opened Results
  import opened Chores
  import opened ChoreGuarantees
  import opened ChoreOutcomes

  function Get<K>(m: map<K, nat>, k: K): nat { if k in m then m[k] else 0 }

  function Bump<K>(m: map<K, nat>, k: K): map<K, nat> { m[k := Get(m, k) + 1] }

  datatype Counters = Counters(byKey: map<Key, nat>, byCaption: map<string, nat>,
                               ownKey: map<(int, Key), nat>, ownCaption: map<(int, string), nat>)
  {
    /** The counters after one more task of person `id`. */
    function Noting(id: int, t: Task): Counters {
      if !Counted(t) then this
      else
        var k := KeyOf(t).value;
        var keyed := this.(byKey := Bump(byKey, k), ownKey := Bump(ownKey, (id, k)));
        if t.caption == "" then keyed
        else keyed.(byCaption := Bump(byCaption, t.caption), ownCaption := Bump(ownCaption, (id, t.caption)))
    }

    function Own(id: int, c: Chore): nat { Max(Get(ownKey, (id, c.Key())), Get(ownCaption, (id, c.caption))) }

    function OwnOf(c: Chore): int -> nat { id => Own(id, c) }
  }

  /** The counters say what counting anew would. */
  ghost predicate Agrees(n: Counters, es: seq<Employee>) {
    KeysAgree(n, es) && CaptionsAgree(n, es)
  }

  ghost predicate KeysAgree(n: Counters, es: seq<Employee>) {
    && (forall k :: Get(n.byKey, k) == Tally(es, None, WithKey(k)))
    && (forall id, k :: Get(n.ownKey, (id, k)) == Tally(es, Some(id), WithKey(k)))
  }

  ghost predicate CaptionsAgree(n: Counters, es: seq<Employee>) {
    && (forall s :: s != "" ==> Get(n.byCaption, s) == Tally(es, None, WithCaption(s)))
    && (forall id, s :: s != "" ==> Get(n.ownCaption, (id, s)) == Tally(es, Some(id), WithCaption(s)))
  }

  ghost predicate LoadsAgree(loads: map<int, nat>, es: seq<Employee>) {
    forall i :: 0 <= i < |es| && Scheduled(Ids(es), i) ==> Get(loads, es[i].id) == Load(es[i])
  }

  lemma NotingAgrees(n: Counters, es: seq<Employee>, i: nat, t: Task)
    requires i < |es| && es[i].id > 0 && Agrees(n, es)
    ensures Agrees(n.Noting(es[i].id, t), Give(es, i, t))
  {
    NotingAgreesOnKeys(n, es, i, t);
    NotingAgreesOnCaptions(n, es, i, t);
  }

  lemma NotingAgreesOnKeys(n: Counters, es: seq<Employee>, i: nat, t: Task)
    requires i < |es| && es[i].id > 0 && KeysAgree(n, es)
    ensures KeysAgree(n.Noting(es[i].id, t), Give(es, i, t))
  {
    var after, given := n.Noting(es[i].id, t), Give(es, i, t);
    forall k ensures Get(after.byKey, k) == Tally(given, None, WithKey(k)) {
      TallyGiven(es, i, t, None, WithKey(k));
    }
    forall who, k ensures Get(after.ownKey, (who, k)) == Tally(given, Some(who), WithKey(k)) {
      TallyGiven(es, i, t, Some(who), WithKey(k));
    }
  }

  lemma NotingAgreesOnCaptions(n: Counters, es: seq<Employee>, i: nat, t: Task)
    requires i < |es| && es[i].id > 0 && CaptionsAgree(n, es)
    ensures CaptionsAgree(n.Noting(es[i].id, t), Give(es, i, t))
  {
    var after, given := n.Noting(es[i].id, t), Give(es, i, t);
    forall s | s != "" ensures Get(after.byCaption, s) == Tally(given, None, WithCaption(s)) {
      TallyGiven(es, i, t, None, WithCaption(s));
    }
    forall who, s | s != "" ensures Get(after.ownCaption, (who, s)) == Tally(given, Some(who), WithCaption(s)) {
      TallyGiven(es, i, t, Some(who), WithCaption(s));
    }
  }

  lemma {:induction false} TallyEmptyHanded(es: seq<Employee>, e: Employee, who: Option<int>, test: Test)
    requires e.id <= 0 || e.List() == []
    ensures Tally(es + [e], who, test) == Tally(es, who, test)
  {
    assert (es + [e])[..|es|] == es;
  }

  lemma EmptyHandedAgrees(n: Counters, es: seq<Employee>, e: Employee)
    requires Agrees(n, es) && (e.id <= 0 || e.List() == [])
    ensures Agrees(n, es + [e])
  {
    forall k ensures Get(n.byKey, k) == Tally(es + [e], None, WithKey(k)) {
      TallyEmptyHanded(es, e, None, WithKey(k));
    }
    forall s | s != "" ensures Get(n.byCaption, s) == Tally(es + [e], None, WithCaption(s)) {
      TallyEmptyHanded(es, e, None, WithCaption(s));
    }
    forall who, k ensures Get(n.ownKey, (who, k)) == Tally(es + [e], Some(who), WithKey(k)) {
      TallyEmptyHanded(es, e, Some(who), WithKey(k));
    }
    forall who, s | s != "" ensures Get(n.ownCaption, (who, s)) == Tally(es + [e], Some(who), WithCaption(s)) {
      TallyEmptyHanded(es, e, Some(who), WithCaption(s));
    }
  }

  // ---- decisions depend on the counts alone ----

  lemma {:induction false} SameCandidates(ids: seq<int>, staff: Staff, c: Chore, flags: Flags, own: int -> nat, own': int -> nat, n: nat)
    requires n <= |ids| && forall id :: own(id) == own'(id)
    ensures Candidates(ids, staff, c, flags, own, n) == Candidates(ids, staff, c, flags, own', n)
  {
    if n > 0 {
      SameCandidates(ids, staff, c, flags, own, own', n - 1);
    }
  }

  lemma {:induction false} SameLeastLoaded(pool: seq<nat>, load: nat -> nat, load': nat -> nat)
    requires pool != [] && forall i <- pool :: load(i) == load'(i)
    ensures LeastLoaded(pool, load) == LeastLoaded(pool, load')
  {
    var n := |pool| - 1;
    if n > 0 {
      assert forall i <- pool[..n] :: i in pool;
      SameLeastLoaded(pool[..n], load, load');
      LeastLoadedIsLeast(pool[..n], load);
    }
  }

  lemma SameChoice(ids: seq<int>, staff: Staff, c: Chore, own: int -> nat, own': int -> nat, load: nat -> nat, load': nat -> nat)
    requires forall id :: own(id) == own'(id)
    requires forall i: nat :: Scheduled(ids, i) ==> load(i) == load'(i)
    ensures Choose(ids, staff, c, own, load) == Choose(ids, staff, c, own', load')
  {
    SameCandidates(ids, staff, c, Exclusions(c), own, own', |ids|);
    SameCandidates(ids, staff, c, Flags(c.excludeCloser, false), own, own', |ids|);
    SameCandidates(ids, staff, c, Flags(false, c.excludeOpener), own, own', |ids|);
    SameCandidates(ids, staff, c, Flags(false, false), own, own', |ids|);
    var pool := Pool(ids, staff, c, own);
    assert pool == Pool(ids, staff, c, own');
    PoolExactly(ids, staff, c, own);
    assert forall i <- pool :: CanTake(ids, staff, c, Flags(false, false), own, i);
    PreferringExactly(ids, staff, c, pool);
    if pool != [] {
      SameLeastLoaded(pool, load, load');
    }
    if Preferring(ids, staff, c, pool) != [] {
      SameLeastLoaded(Preferring(ids, staff, c, pool), load, load');
    }
  }

  // ---- the run ----

  method CountDefinitions(chores: seq<Chore>) returns (m: map<string, nat>)
    ensures forall s :: s != "" ==> Get(m, s) == Definitions(chores, s)
  {
    m := map[];
    for i := 0 to |chores|
      invariant forall s :: s != "" ==> Get(m, s) == Definitions(chores[..i], s)
    {
      assert chores[..i + 1][..i] == chores[..i];
      if chores[i].caption != "" {
        m := Bump(m, chores[i].caption);
      }
    }
    assert chores[..|chores|] == chores;
  }

  function LoadFrom(ids: seq<int>, loads: map<int, nat>): nat -> nat {
    (i: nat) => if i < |ids| then Get(loads, ids[i]) else 0
  }

  method CountOne(n: Counters, es: seq<Employee>, e: Employee) returns (n': Counters)
    requires Agrees(n, es) && e.tasks.Some?
    ensures Agrees(n', es + [e])
  {
    n' := n;
    if e.id <= 0 {
      EmptyHandedAgrees(n, es, e);
      return;
    }
    var tasks := e.List();
    ghost var part := es + [Employee(e.id, Some([]))];
    EmptyHandedAgrees(n, es, Employee(e.id, Some([])));
    for j := 0 to |tasks|
      invariant part == es + [Employee(e.id, Some(tasks[..j]))]
      invariant Agrees(n', part)
    {
      NotingAgrees(n', part, |es|, tasks[j]);
      n' := n'.Noting(e.id, tasks[j]);
      assert tasks[..j + 1] == tasks[..j] + [tasks[j]];
      part := Give(part, |es|, tasks[j]);
    }
    assert tasks[..|tasks|] == tasks;
  }

  method CountAll(es: seq<Employee>) returns (n: Counters, loads: map<int, nat>)
    requires forall e <- es :: e.tasks.Some?
    ensures Agrees(n, es) && LoadsAgree(loads, es)
  {
    n, loads := Counters(map[], map[], map[], map[]), map[];
    for i := 0 to |es|
      invariant Agrees(n, es[..i]) && LoadsAgree(loads, es[..i])
    {
      assert es[..i + 1] == es[..i] + [es[i]];
      n := CountOne(n, es[..i], es[i]);
      LoadsExtend(loads, es[..i], es[i]);
      if es[i].id > 0 {
        loads := loads[es[i].id := Load(es[i])];
      }
    }
    assert es[..|es|] == es;
  }

  lemma LoadsExtend(loads: map<int, nat>, es: seq<Employee>, e: Employee)
    requires LoadsAgree(loads, es)
    ensures LoadsAgree(if e.id > 0 then loads[e.id := Load(e)] else loads, es + [e])
  {
    var all := es + [e];
    forall i | 0 <= i < |es| && Scheduled(Ids(all), i) ensures Scheduled(Ids(es), i) && es[i].id != e.id {
      assert forall j :: i < j < |es| ==> Ids(all)[j] == Ids(es)[j];
      assert Ids(all)[|es|] == e.id;
    }
  }

  lemma LoadGrows(loads: map<int, nat>, es: seq<Employee>, i: nat, t: Task)
    requires i < |es| && Scheduled(Ids(es), i) && LoadsAgree(loads, es) && !t.Scalar?
    ensures LoadsAgree(Bump(loads, es[i].id), Give(es, i, t))
  {
    var given := Give(es, i, t);
    var list := es[i].List();
    assert (list + [t])[..|list|] == list;
    assert Ids(given) == Ids(es);
    forall j | 0 <= j < |es| && Scheduled(Ids(es), j)
      ensures Get(Bump(loads, es[i].id), es[j].id) == Load(given[j])
    {
      assert j != i ==> Ids(es)[j] != Ids(es)[i];
    }
  }

  class Schedule {
    var employees: seq<Employee>

    constructor (es: seq<Employee>)
      ensures employees == es
    {
      employees := es;
    }

    method StripAutomatic()
      modifies this
      ensures employees == Strip(old(employees))
    {
      ghost var was := employees;
      for i := 0 to |employees|
        invariant |employees| == |was|
        invariant forall j :: 0 <= j < i ==> employees[j] == Strip(was)[j]
        invariant forall j :: i <= j < |was| ==> employees[j] == was[j]
      {
        employees := employees[i := employees[i].(tasks := Some(Manual(employees[i].List())))];
      }
    }

    /** Edits the schedule as the run that counts anew at every decision would. */
    method AssignChores(staff: Staff, chores: seq<Chore>)
      modifies this
      ensures employees == Run(old(employees), staff, chores)
    {
      if chores == [] {
        return;
      }
      var rules := RulesFor(staff, chores);
      StripAutomatic();
      var counters, loads := CountAll(employees);
      if !AnyoneThere(employees) {
        StripKeepsPeople(old(employees));
        return;
      }
      StripKeepsPeople(old(employees));
      var definitions := CountDefinitions(rules.chores);
      ghost var start := employees;
      for n := 0 to |rules.chores|
        invariant employees == Fill(start, rules, n)
        invariant Agrees(counters, employees) && LoadsAgree(loads, employees)
      {
        counters, loads := AssignOne(rules, rules.chores[n], definitions, counters, loads);
      }
    }

    method AssignOne(rules: Rules, c: Chore, definitions: map<string, nat>,
                     counters: Counters, loads: map<int, nat>)
      returns (counters': Counters, loads': map<int, nat>)
      requires Agrees(counters, employees) && LoadsAgree(loads, employees)
      requires forall s :: s != "" ==> Get(definitions, s) == Definitions(rules.chores, s)
      modifies this
      ensures employees == Place(old(employees), rules, c)
      ensures TurnTold(old(employees), employees, rules.staff, rules.headcount, rules.chores, c)
      ensures Agrees(counters', employees) && LoadsAgree(loads', employees)
    {
      counters', loads' := counters, loads;
      TurnIsTold(employees, rules, c);
      if c.caption == "" || !Wanted(rules.headcount, c, Get(counters.byKey, c.Key()), Get(counters.byCaption, c.caption), Get(definitions, c.caption)) {
        return;
      }
      var ids := Ids(employees);
      var choice := Choose(ids, rules.staff, c, counters.OwnOf(c), LoadFrom(ids, loads));
      ChoiceAgrees(employees, rules.staff, c, counters, loads);
      if choice.None? {
        return;
      }
      var i := choice.value;
      ChoiceIsFair(ids, rules.staff, c, counters.OwnOf(c), LoadFrom(ids, loads), i);
      if HasKey(employees[i].List(), c.Key()) {
        return;
      }
      NotingAgrees(counters, employees, i, c.NewTask());
      LoadGrows(loads, employees, i, c.NewTask());
      counters' := counters.Noting(ids[i], c.NewTask());
      loads' := Bump(loads, ids[i]);
      employees := Give(employees, i, c.NewTask());
    }
  }

  lemma StripKeepsPeople(es: seq<Employee>)
    ensures AnyoneThere(Strip(es)) == AnyoneThere(es)
    ensures forall e <- Strip(es) :: e.tasks.Some?
  {
    if AnyoneThere(es) {
      var i :| 0 <= i < |es| && es[i].id > 0;
      assert Strip(es)[i] in Strip(es);
    }
    if AnyoneThere(Strip(es)) {
      var i :| 0 <= i < |es| && Strip(es)[i].id > 0;
      assert es[i] in es;
    }
  }

  lemma ChoiceAgrees(es: seq<Employee>, staff: Staff, c: Chore, counters: Counters, loads: map<int, nat>)
    requires Agrees(counters, es) && LoadsAgree(loads, es) && c.caption != ""
    ensures Choose(Ids(es), staff, c, counters.OwnOf(c), LoadFrom(Ids(es), loads)) == Choose(Ids(es), staff, c, OwnOf(es, c), LoadOf(es))
  {
    forall id ensures counters.OwnOf(c)(id) == OwnOf(es, c)(id) {
      assert counters.Own(id, c) == Own(es, id, c);
    }
    forall i: nat | Scheduled(Ids(es), i) ensures LoadFrom(Ids(es), loads)(i) == LoadOf(es)(i) {
    }
    SameChoice(Ids(es), staff, c, counters.OwnOf(c), OwnOf(es, c), LoadFrom(Ids(es), loads), LoadOf(es));
  }
}
