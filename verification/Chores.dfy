/**
 Which chore goes to whom. The schedule is filled from its tasks alone: every count that a
 decision needs is taken from the task lists as they are at that moment.
 Captions are trimmed, lower-case texts, empty when there is none.
 */
module Chores {
  import opened Results

  datatype Key = Id(id: int) | Caption(text: string)

  datatype Task =
    | Entry(chore: bool, auto: bool, choreId: int, caption: string)
    | Text(caption: string)
    | Scalar(caption: string)

  predicate Auto(t: Task) { t.Entry? && t.auto }

  function KeyOf(t: Task): Option<Key> {
    if t.Entry? && t.choreId > 0 then Some(Id(t.choreId))
    else if t.caption == "" then None
    else Some(Caption(t.caption))
  }

  /** The tasks that count as assigned chores. */
  predicate Counted(t: Task) { (t.Entry? ==> t.chore) && !t.Scalar? && KeyOf(t).Some? }

  datatype Employee = Employee(id: int, tasks: Option<seq<Task>>)
  {
    function List(): seq<Task> { match tasks case None => [] case Some(s) => s }
  }

  datatype Chore = Chore(id: int, caption: string, priority: int, enabled: bool, allowMultiple: bool,
                         maxPerDay: Option<int>, minStaff: Option<int>,
                         maxPerShift: Option<int>, maxPerEmployeePerDay: Option<int>,
                         excludeCloser: bool, excludeOpener: bool, assignedTo: int)
  {
    function Key(): Key { if id > 0 then Id(id) else Caption(caption) }

    function NewTask(): Task { Entry(true, true, if id > 0 then id else 0, caption) }
  }

  datatype Profile = Profile(optOut: bool, closer: bool, opener: bool)
  datatype Preference = Preference(ids: set<int>, captions: set<string>)
  datatype Staff = Staff(profiles: map<int, Profile>, preferences: map<int, Preference>)
  {
    predicate Prefers(id: int, c: Chore) {
      id in preferences && ((c.id > 0 && c.id in preferences[id].ids) || c.caption in preferences[id].captions)
    }
  }

  // ---- counting ----

  type Test = Task -> bool

  function Count(tasks: seq<Task>, test: Test): nat {
    if tasks == [] then 0
    else Count(tasks[..|tasks| - 1], test) + if test(tasks[|tasks| - 1]) then 1 else 0
  }

  predicate Matches(e: Employee, who: Option<int>) { e.id > 0 && (who.Some? ==> e.id == who.value) }

  /** The tasks that pass the test, over everyone or over one person. */
  function Tally(es: seq<Employee>, who: Option<int>, test: Test): nat {
    if es == [] then 0
    else
      var n := |es| - 1;
      Tally(es[..n], who, test) + if Matches(es[n], who) then Count(es[n].List(), test) else 0
  }

  function WithKey(k: Key): Test { t => Counted(t) && KeyOf(t) == Some(k) }

  function WithCaption(caption: string): Test { t => Counted(t) && t.caption == caption && t.caption != "" }

  function Load(e: Employee): nat { Count(e.List(), (t: Task) => !t.Scalar?) }

  function Max(a: nat, b: nat): nat { if a < b then b else a }

  /** How often the chore is already one person's. */
  function Own(es: seq<Employee>, id: int, c: Chore): nat {
    Max(Tally(es, Some(id), WithKey(c.Key())), Tally(es, Some(id), WithCaption(c.caption)))
  }

  function Definitions(chores: seq<Chore>, caption: string): nat {
    if chores == [] then 0
    else Definitions(chores[..|chores| - 1], caption) + if chores[|chores| - 1].caption == caption then 1 else 0
  }

  // ---- who may take a chore ----

  function Ids(es: seq<Employee>): seq<int> {
    seq(|es|, i requires 0 <= i < |es| => es[i].id)
  }

  /** The position that stands for an id is its last one. */
  predicate Scheduled(ids: seq<int>, i: nat) {
    i < |ids| && ids[i] > 0 && forall j :: i < j < |ids| ==> ids[j] != ids[i]
  }

  datatype Flags = Flags(noCloser: bool, noOpener: bool)

  predicate Within(limit: Option<int>, count: nat) { limit.Some? && limit.value > 0 ==> count < limit.value }

  predicate Eligible(staff: Staff, c: Chore, flags: Flags, id: int, own: nat) {
    && id in staff.profiles
    && !staff.profiles[id].optOut
    && !(flags.noCloser && staff.profiles[id].closer)
    && !(flags.noOpener && staff.profiles[id].opener)
    && Within(c.maxPerShift, own) && Within(c.maxPerEmployeePerDay, own)
  }

  /** The scheduled positions below `n` that may take the chore; `own` says how often each person has it. */
  function Candidates(ids: seq<int>, staff: Staff, c: Chore, flags: Flags, own: int -> nat, n: nat): seq<nat>
    requires n <= |ids|
  {
    if n == 0 then []
    else
      var front := Candidates(ids, staff, c, flags, own, n - 1);
      if Scheduled(ids, n - 1) && Eligible(staff, c, flags, ids[n - 1], own(ids[n - 1])) then front + [n - 1] else front
  }

  function Everyone(ids: seq<int>, staff: Staff, c: Chore, flags: Flags, own: int -> nat): seq<nat> {
    Candidates(ids, staff, c, flags, own, |ids|)
  }

  function Exclusions(c: Chore): Flags { Flags(c.excludeCloser, c.excludeOpener) }

  /** The candidates; when there are none, exclusions are lifted as long as that leaves exactly one. */
  function Pool(ids: seq<int>, staff: Staff, c: Chore, own: int -> nat): seq<nat> {
    var base := Everyone(ids, staff, c, Exclusions(c), own);
    var openers := Everyone(ids, staff, c, Flags(c.excludeCloser, false), own);
    var closers := Everyone(ids, staff, c, Flags(false, c.excludeOpener), own);
    var both := Everyone(ids, staff, c, Flags(false, false), own);
    if base != [] then base
    else if c.excludeOpener && |openers| == 1 then openers
    else if c.excludeCloser && |closers| == 1 then closers
    else if c.excludeOpener && c.excludeCloser && |both| == 1 then both
    else []
  }

  function Preferring(ids: seq<int>, staff: Staff, c: Chore, pool: seq<nat>): seq<nat> {
    if pool == [] then []
    else
      var i := pool[|pool| - 1];
      var front := Preferring(ids, staff, c, pool[..|pool| - 1]);
      if i < |ids| && staff.Prefers(ids[i], c) then front + [i] else front
  }

  /** The first of the least loaded. */
  function LeastLoaded(pool: seq<nat>, load: nat -> nat): nat
    requires pool != []
  {
    var n := |pool| - 1;
    if n == 0 then pool[0]
    else
      var best := LeastLoaded(pool[..n], load);
      if load(pool[n]) < load(best) then pool[n] else best
  }

  /** The position whose person already is the chore's assignee. */
  function PositionOf(ids: seq<int>, id: int): (i: Option<nat>)
    ensures i.Some? ==> i.value < |ids| && ids[i.value] == id && forall j :: i.value < j < |ids| ==> ids[j] != id
    ensures i.None? ==> id !in ids
  {
    if ids == [] then None
    else
      var n := |ids| - 1;
      if ids[n] == id then Some(n) else PositionOf(ids[..n], id)
  }

  function Choose(ids: seq<int>, staff: Staff, c: Chore, own: int -> nat, load: nat -> nat): Option<nat> {
    var current := if c.assignedTo > 0 then PositionOf(ids, c.assignedTo) else None;
    if current.Some? && Eligible(staff, c, Exclusions(c), c.assignedTo, own(c.assignedTo)) then current
    else
      var pool := Pool(ids, staff, c, own);
      var preferred := Preferring(ids, staff, c, pool);
      if preferred != [] then Some(LeastLoaded(preferred, load))
      else if pool != [] then Some(LeastLoaded(pool, load))
      else None
  }

  /** Whether a chore is to be handed out at all, given how often its key and its caption are assigned. */
  predicate Wanted(headcount: nat, c: Chore, keyAssigned: nat, captionAssigned: nat, definitions: nat) {
    && c.enabled && c.caption != ""
    && (c.allowMultiple || (keyAssigned == 0 && captionAssigned < definitions))
    && Within(c.maxPerDay, captionAssigned)
    && (c.minStaff.Some? && c.minStaff.value > 0 ==> headcount >= c.minStaff.value)
  }

  predicate HasKey(tasks: seq<Task>, k: Key) { exists t <- tasks :: KeyOf(t) == Some(k) }

  function Give(es: seq<Employee>, i: nat, t: Task): seq<Employee>
    requires i < |es|
  {
    es[i := es[i].(tasks := Some(es[i].List() + [t]))]
  }

  function OwnOf(es: seq<Employee>, c: Chore): int -> nat { id => Own(es, id, c) }

  function LoadOf(es: seq<Employee>): nat -> nat { (i: nat) => if i < |es| then Load(es[i]) else 0 }

  /** What is fixed during a run. */
  datatype Rules = Rules(staff: Staff, headcount: nat, chores: seq<Chore>)

  /** Where a chore goes, if anywhere. */
  function Target(es: seq<Employee>, r: Rules, c: Chore): (i: Option<nat>)
    ensures i.Some? ==> i.value < |es| && !HasKey(es[i.value].List(), c.Key())
  {
    if !Wanted(r.headcount, c, Tally(es, None, WithKey(c.Key())), Tally(es, None, WithCaption(c.caption)), Definitions(r.chores, c.caption)) then None
    else
      match Choose(Ids(es), r.staff, c, OwnOf(es, c), LoadOf(es))
      case None => None
      case Some(i) => if i >= |es| || HasKey(es[i].List(), c.Key()) then None else Some(i)
  }

  function Place(es: seq<Employee>, r: Rules, c: Chore): seq<Employee> {
    match Target(es, r, c)
    case None => es
    case Some(i) => Give(es, i, c.NewTask())
  }

  /** Hand out the first `n` chores. */
  function Fill(es: seq<Employee>, r: Rules, n: nat): seq<Employee>
    requires n <= |r.chores|
  {
    if n == 0 then es else Place(Fill(es, r, n - 1), r, r.chores[n - 1])
  }

  // ---- a whole run ----

  function Manual(tasks: seq<Task>): seq<Task> {
    if tasks == [] then []
    else
      var n := |tasks| - 1;
      Manual(tasks[..n]) + if Auto(tasks[n]) then [] else [tasks[n]]
  }

  function Strip(es: seq<Employee>): seq<Employee> {
    seq(|es|, i requires 0 <= i < |es| => es[i].(tasks := Some(Manual(es[i].List()))))
  }

  predicate Before(a: Chore, b: Chore) { a.priority > b.priority || (a.priority == b.priority && a.id <= b.id) }

  function Insert(s: seq<Chore>, c: Chore): seq<Chore> {
    if s == [] || Before(s[|s| - 1], c) then s + [c]
    else Insert(s[..|s| - 1], c) + [s[|s| - 1]]
  }

  /** The stable sort by descending priority, then by id. */
  function InOrder(s: seq<Chore>): seq<Chore> {
    if s == [] then [] else Insert(InOrder(s[..|s| - 1]), s[|s| - 1])
  }

  predicate AnyoneThere(es: seq<Employee>) { exists e <- es :: e.id > 0 }

  function Headcount(profiles: map<int, Profile>): nat { |set id | id in profiles && !profiles[id].optOut| }

  function RulesFor(staff: Staff, chores: seq<Chore>): Rules { Rules(staff, Headcount(staff.profiles), InOrder(chores)) }

  function Run(es: seq<Employee>, staff: Staff, chores: seq<Chore>): seq<Employee> {
    if chores == [] then es
    else if !AnyoneThere(es) then Strip(es)
    else Fill(Strip(es), RulesFor(staff, chores), |InOrder(chores)|)
  }
}
