/**
 The rollback gate for schema diffs: which DDL it lets through, and that what it
 lets through never breaks an insert issued by the release that is rolled back to.
 Statements are taken as parsed; a written table name carries both the table it
 denotes and the key under which the gate files it.
 */
module RollbackDdl {
  import opened Results

  datatype TableRef = TableRef(table: string, key: string)

  datatype Default = NoDefault | NullDefault | ValueDefault

  /** A column definition, reduced to what the gate and the database react to. */
  datatype Definition = Definition(constrained: bool, notNull: bool, default: Default)

  type Rule = nat

  datatype Column = Column(nullable: bool, default: Default)
  datatype Table = Table(columns: map<string, Column>, rules: set<Rule>)
  type Schema = map<string, Table>

  datatype Action =
    | AddColumn(ifNotExists: bool, name: string, definition: Definition, rule: Rule)
    | AddOther(rule: Rule)                    // any other action that begins with ADD
    | Rework(result: Table)                   // any other action

  datatype Statement =
    | CreateTable(ref: TableRef, ifNotExists: bool, body: Table)
    | CreateEnum
    | CreateIndex(unique: bool, ref: TableRef, rule: Rule)
    | AlterTable(ref: TableRef, actions: seq<Action>)
    | Unknown(result: Schema)

  // ---- the gate ----

  datatype Category = NewTable | NewEnum | NewTableIndex | Index | NewTableAdditive | ColumnDefaulted | ColumnNullable

  function ClassifyColumn(d: Definition): Option<Category> {
    if d.constrained then None
    else if d.notNull && d.default.NoDefault? then None
    else Some(if d.default.NoDefault? then ColumnNullable else ColumnDefaulted)
  }

  function ClassifyAction(a: Action, isNew: bool): Option<Category> {
    if isNew then (if a.Rework? then None else Some(NewTableAdditive))
    else if a.AddColumn? then ClassifyColumn(a.definition)
    else None
  }

  function ClassifyActions(actions: seq<Action>, isNew: bool): Option<seq<Category>> {
    if actions == [] then Some([])
    else
      var n := |actions| - 1;
      match (ClassifyActions(actions[..n], isNew), ClassifyAction(actions[n], isNew))
      case (Some(front), Some(last)) => Some(front + [last])
      case _ => None
  }

  function Created(s: Statement, created: set<string>): set<string> {
    if s.CreateTable? then created + {s.ref.key} else created
  }

  function ClassifyStatement(s: Statement, created: set<string>): Option<seq<Category>> {
    match s
    case CreateTable(_, _, _) => Some([NewTable])
    case CreateEnum => Some([NewEnum])
    case CreateIndex(unique, ref, _) =>
      if unique && ref.key !in created then None
      else Some([if ref.key in created then NewTableIndex else Index])
    case AlterTable(ref, actions) => ClassifyActions(actions, ref.key in created)
    case Unknown(_) => None
  }

  function CreatedBy(diff: seq<Statement>): set<string> {
    if diff == [] then {} else Created(diff[|diff| - 1], CreatedBy(diff[..|diff| - 1]))
  }

  function ClassifyDiff(diff: seq<Statement>): Option<seq<Category>> {
    if diff == [] then Some([])
    else
      var n := |diff| - 1;
      match (ClassifyDiff(diff[..n]), ClassifyStatement(diff[n], CreatedBy(diff[..n])))
      case (Some(front), Some(last)) => Some(front + last)
      case _ => None
  }

  /** The gate's loop over the statements, with its growing set of created tables. */
  method Classify(diff: seq<Statement>) returns (result: Option<seq<Category>>)
    ensures result == ClassifyDiff(diff)
  {
    var created: set<string> := {};
    var classifications: seq<Category> := [];
    var i := 0;
    while i < |diff|
      invariant 0 <= i <= |diff|
      invariant created == CreatedBy(diff[..i])
      invariant ClassifyDiff(diff[..i]) == Some(classifications)
    {
      assert diff[..i + 1][..i] == diff[..i];
      var s := diff[i];
      var found := ClassifyStatement(s, created);
      if found.None? {
        RefusalStands(diff, i + 1);
        return None;
      }
      classifications := classifications + found.value;
      if s.CreateTable? {
        created := created + {s.ref.key};
      }
      i := i + 1;
    }
    assert diff[..i] == diff;
    return Some(classifications);
  }

  lemma {:induction false} RefusalStands(diff: seq<Statement>, i: nat)
    requires i <= |diff| && ClassifyDiff(diff[..i]).None?
    ensures ClassifyDiff(diff).None?
  {
    if i < |diff| {
      assert diff[..|diff| - 1][..i] == diff[..i];
      RefusalStands(diff[..|diff| - 1], i);
    } else {
      assert diff[..i] == diff;
    }
  }

  // ---- the gate in full ----

  /** An earlier statement of the diff creates a table filed under the key. */
  ghost predicate CreatedEarlier(diff: seq<Statement>, i: nat, key: string) {
    exists j :: 0 <= j < i && j < |diff| && diff[j].CreateTable? && diff[j].ref.key == key
  }

  /** On a table that exists only new columns may come, without constraint, and nullable or with a DEFAULT. */
  predicate HarmlessColumn(a: Action) {
    a.AddColumn? && !a.definition.constrained && (!a.definition.notNull || a.definition.default != NoDefault)
  }

  /**
   What the gate lets through: new tables and enums, indexes that are not unique, and harmless new columns; on a
   table the diff itself has created, unique indexes too and whatever begins with ADD.
   */
  ghost predicate Allowed(diff: seq<Statement>, i: nat)
    requires i < |diff|
  {
    match diff[i]
    case CreateTable(_, _, _) => true
    case CreateEnum => true
    case CreateIndex(unique, ref, _) => !unique || CreatedEarlier(diff, i, ref.key)
    case AlterTable(ref, actions) =>
      forall k :: 0 <= k < |actions| ==> HarmlessColumn(actions[k]) || (CreatedEarlier(diff, i, ref.key) && !actions[k].Rework?)
    case Unknown(_) => false
  }

  lemma {:induction false} CreatedByExactly(diff: seq<Statement>, key: string)
    ensures key in CreatedBy(diff) <==> CreatedEarlier(diff, |diff|, key)
  {
    if diff != [] {
      var n := |diff| - 1;
      CreatedByExactly(diff[..n], key);
      if CreatedEarlier(diff[..n], n, key) {
        var j :| 0 <= j < n && diff[..n][j].CreateTable? && diff[..n][j].ref.key == key;
        assert diff[j].CreateTable? && diff[j].ref.key == key;
      }
      if CreatedEarlier(diff, |diff|, key) {
        var j :| 0 <= j < |diff| && diff[j].CreateTable? && diff[j].ref.key == key;
        assert j < n ==> diff[..n][j].CreateTable? && diff[..n][j].ref.key == key;
      }
    }
  }

  lemma {:induction false} ActionsPassExactly(actions: seq<Action>, isNew: bool)
    ensures ClassifyActions(actions, isNew).Some? <==>
              forall k :: 0 <= k < |actions| ==> HarmlessColumn(actions[k]) || (isNew && !actions[k].Rework?)
  {
    if actions != [] {
      var n := |actions| - 1;
      ActionsPassExactly(actions[..n], isNew);
      assert forall k :: 0 <= k < n ==> actions[..n][k] == actions[k];
    }
  }

  lemma StatementPassesExactly(diff: seq<Statement>, i: nat)
    requires i < |diff|
    ensures ClassifyStatement(diff[i], CreatedBy(diff[..i])).Some? <==> Allowed(diff, i)
  {
    if diff[i].CreateIndex? || diff[i].AlterTable? {
      var key := diff[i].ref.key;
      CreatedByExactly(diff[..i], key);
      EarlierInPrefix(diff, i, key);
      if diff[i].AlterTable? {
        ActionsPassExactly(diff[i].actions, key in CreatedBy(diff[..i]));
      }
    }
  }

  lemma EarlierInPrefix(diff: seq<Statement>, i: nat, key: string)
    requires i <= |diff|
    ensures CreatedEarlier(diff[..i], i, key) <==> CreatedEarlier(diff, i, key)
  {
    if CreatedEarlier(diff, i, key) {
      var j :| 0 <= j < i && diff[j].CreateTable? && diff[j].ref.key == key;
      assert diff[..i][j].CreateTable?;
    }
    if CreatedEarlier(diff[..i], i, key) {
      var j :| 0 <= j < i && diff[..i][j].CreateTable? && diff[..i][j].ref.key == key;
      assert diff[j].CreateTable?;
    }
  }

  /** The gate accepts a diff exactly when every statement is allowed at its place. */
  lemma {:induction false} AcceptedExactly(diff: seq<Statement>)
    ensures ClassifyDiff(diff).Some? <==> forall i :: 0 <= i < |diff| ==> Allowed(diff, i)
  {
    if diff != [] {
      var n := |diff| - 1;
      AcceptedExactly(diff[..n]);
      StatementPassesExactly(diff, n);
      forall i | 0 <= i < n ensures Allowed(diff[..n], i) <==> Allowed(diff, i) {
        AllowedInPrefix(diff, n, i);
      }
    }
  }

  lemma AllowedInPrefix(diff: seq<Statement>, n: nat, i: nat)
    requires i < n <= |diff|
    ensures Allowed(diff[..n], i) <==> Allowed(diff, i)
  {
    if diff[i].CreateIndex? || diff[i].AlterTable? {
      EarlierInPrefix(diff, i, diff[i].ref.key);
      EarlierInPrefix(diff[..n], i, diff[i].ref.key);
      assert diff[..n][..i] == diff[..i];
    }
  }

  // ---- the labels ----

  predicate LabelFits(a: Action, isNew: bool, c: Category) {
    if isNew then c == NewTableAdditive
    else a.AddColumn? && c == if a.definition.default == NoDefault then ColumnNullable else ColumnDefaulted
  }

  /** The labels of an accepted statement: one for each action of an ALTER TABLE, and otherwise one. */
  ghost predicate LabelsFit(diff: seq<Statement>, i: nat, labels: seq<Category>)
    requires i < |diff|
  {
    match diff[i]
    case CreateTable(_, _, _) => labels == [NewTable]
    case CreateEnum => labels == [NewEnum]
    case CreateIndex(_, ref, _) => labels == [if CreatedEarlier(diff, i, ref.key) then NewTableIndex else Index]
    case AlterTable(ref, actions) =>
      |labels| == |actions| && forall k :: 0 <= k < |labels| ==> LabelFits(actions[k], CreatedEarlier(diff, i, ref.key), labels[k])
    case Unknown(_) => false
  }

  lemma {:induction false} ActionLabels(actions: seq<Action>, isNew: bool)
    requires ClassifyActions(actions, isNew).Some?
    ensures var labels := ClassifyActions(actions, isNew).value;
            |labels| == |actions| && forall k :: 0 <= k < |labels| ==> LabelFits(actions[k], isNew, labels[k])
  {
    if actions != [] {
      ActionLabels(actions[..|actions| - 1], isNew);
    }
  }

  lemma StatementLabels(diff: seq<Statement>, i: nat)
    requires i < |diff| && ClassifyStatement(diff[i], CreatedBy(diff[..i])).Some?
    ensures LabelsFit(diff, i, ClassifyStatement(diff[i], CreatedBy(diff[..i])).value)
  {
    if diff[i].CreateIndex? || diff[i].AlterTable? {
      var key := diff[i].ref.key;
      CreatedByExactly(diff[..i], key);
      EarlierInPrefix(diff, i, key);
      if diff[i].AlterTable? {
        ActionLabels(diff[i].actions, key in CreatedBy(diff[..i]));
      }
    }
  }

  function Joined(parts: seq<seq<Category>>): seq<Category> {
    if parts == [] then [] else Joined(parts[..|parts| - 1]) + parts[|parts| - 1]
  }

  /** An accepted diff is labelled statement by statement, in order. */
  lemma {:induction false} LabelsInOrder(diff: seq<Statement>) returns (parts: seq<seq<Category>>)
    requires ClassifyDiff(diff).Some?
    ensures |parts| == |diff| && ClassifyDiff(diff).value == Joined(parts)
    ensures forall i :: 0 <= i < |diff| ==> LabelsFit(diff, i, parts[i])
  {
    parts := [];
    if diff != [] {
      var n := |diff| - 1;
      var front := LabelsInOrder(diff[..n]);
      var last := ClassifyStatement(diff[n], CreatedBy(diff[..n])).value;
      StatementLabels(diff, n);
      forall i | 0 <= i < n ensures LabelsFit(diff, i, front[i]) {
        LabelsInPrefix(diff, n, i, front[i]);
      }
      parts := front + [last];
      assert parts[..n] == front;
    }
  }

  lemma LabelsInPrefix(diff: seq<Statement>, n: nat, i: nat, labels: seq<Category>)
    requires i < n <= |diff|
    ensures LabelsFit(diff[..n], i, labels) <==> LabelsFit(diff, i, labels)
  {
    if diff[i].CreateIndex? || diff[i].AlterTable? {
      EarlierInPrefix(diff, i, diff[i].ref.key);
      EarlierInPrefix(diff[..n], i, diff[i].ref.key);
      assert diff[..n][..i] == diff[..i];
    }
  }

  // ---- the database ----

  function ApplyAction(t: Table, a: Action): Option<Table> {
    match a
    case AddColumn(ifNotExists, name, d, rule) =>
      if name in t.columns then (if ifNotExists then Some(t) else None)
      else Some(Table(t.columns[name := Column(!d.notNull, d.default)], if d.constrained then t.rules + {rule} else t.rules))
    case AddOther(rule) => Some(t.(rules := t.rules + {rule}))
    case Rework(result) => Some(result)
  }

  function ApplyActions(t: Table, actions: seq<Action>): Option<Table> {
    if actions == [] then Some(t)
    else
      var n := |actions| - 1;
      match ApplyActions(t, actions[..n])
      case None => None
      case Some(front) => ApplyAction(front, actions[n])
  }

  /** The schema after a statement, or `None` when the database refuses it. */
  function Apply(schema: Schema, s: Statement): Option<Schema> {
    match s
    case CreateTable(ref, ifNotExists, body) =>
      if ref.table in schema then (if ifNotExists then Some(schema) else None)
      else Some(schema[ref.table := body])
    case CreateEnum => Some(schema)
    case CreateIndex(unique, ref, rule) =>
      if ref.table !in schema then None
      else if unique then Some(schema[ref.table := schema[ref.table].(rules := schema[ref.table].rules + {rule})])
      else Some(schema)
    case AlterTable(ref, actions) =>
      if ref.table !in schema then None
      else (match ApplyActions(schema[ref.table], actions)
            case None => None
            case Some(t) => Some(schema[ref.table := t]))
    case Unknown(result) => Some(result)
  }

  function ApplyAll(schema: Schema, diff: seq<Statement>): Option<Schema> {
    if diff == [] then Some(schema)
    else
      match ApplyAll(schema, diff[..|diff| - 1])
      case None => None
      case Some(front) => Apply(front, diff[|diff| - 1])
  }

  /** An insert names columns with values (true for a non-null one) and satisfies some of the rules there may be. */
  datatype Insert = Insert(table: string, values: map<string, bool>, satisfied: set<Rule>)

  predicate ColumnFilled(name: string, c: Column, values: map<string, bool>) {
    if name in values then values[name] || c.nullable else c.nullable || c.default.ValueDefault?
  }

  predicate Accepts(t: Table, w: Insert) {
    && w.values.Keys <= t.columns.Keys
    && (forall name <- t.columns :: ColumnFilled(name, t.columns[name], w.values))
    && t.rules <= w.satisfied
  }

  predicate Succeeds(schema: Schema, w: Insert) {
    w.table in schema && Accepts(schema[w.table], w)
  }

  // ---- what acceptance guarantees ----

  /** The old columns as they were, perhaps more of them, and all the old rules. */
  ghost predicate Extends(before: Table, t: Table) {
    && before.columns.Keys <= t.columns.Keys
    && (forall name :: name in before.columns ==> t.columns[name] == before.columns[name])
    && before.rules <= t.rules
  }

  predicate Fillable(c: Column) { c.nullable || c.default.ValueDefault? }

  /** The table still takes every row that the old one took from writers who know only the old columns. */
  ghost predicate Serves(before: Table, t: Table) {
    forall w :: Accepts(before, w) ==> Accepts(t, w)
  }

  ghost predicate NothingStricter(before: Table, t: Table) {
    && Extends(before, t)
    && (forall name :: name in t.columns && name !in before.columns ==> Fillable(t.columns[name]))
    && t.rules == before.rules
  }

  lemma ServesExactly(before: Table, t: Table)
    requires Extends(before, t)
    ensures Serves(before, t) <==> NothingStricter(before, t)
  {
    if NothingStricter(before, t) {
      forall w | Accepts(before, w) ensures Accepts(t, w) {
        forall name | name in t.columns ensures ColumnFilled(name, t.columns[name], w.values) {
          assert name in before.columns ==> ColumnFilled(name, before.columns[name], w.values);
        }
      }
    }
    if Serves(before, t) {
      var w := Insert("", map name | name in before.columns :: true, before.rules);
      assert Accepts(before, w);
      forall name | name in t.columns && name !in before.columns ensures Fillable(t.columns[name]) {
        assert ColumnFilled(name, t.columns[name], w.values);
      }
    }
  }

  /** An action that turns away some row which the table takes today. */
  predicate ActionBites(t: Table, a: Action) {
    match a
    case AddColumn(_, name, d, rule) =>
      && name !in t.columns
      && ((d.constrained && rule !in t.rules) || (d.notNull && !d.default.ValueDefault?))
    case AddOther(rule) => rule !in t.rules
    case Rework(_) => false                       // never accepted
  }

  predicate ActionsBite(t: Table, actions: seq<Action>)
    requires ApplyActions(t, actions).Some?
  {
    if actions == [] then false
    else
      var n := |actions| - 1;
      ActionsBite(t, actions[..n]) || ActionBites(ApplyActions(t, actions[..n]).value, actions[n])
  }

  /** A statement that turns away, from a table of the schema `before`, some row which it takes today. */
  predicate StatementBites(before: Schema, schema: Schema, s: Statement)
    requires Apply(schema, s).Some?
  {
    match s
    case CreateIndex(unique, ref, rule) => unique && ref.table in before && rule !in schema[ref.table].rules
    case AlterTable(ref, actions) => ref.table in before && ActionsBite(schema[ref.table], actions)
    case _ => false
  }

  predicate DiffBites(before: Schema, diff: seq<Statement>)
    requires ApplyAll(before, diff).Some?
  {
    if diff == [] then false
    else
      var n := |diff| - 1;
      || DiffBites(before, diff[..n])
      || StatementBites(before, ApplyAll(before, diff[..n]).value, diff[n])
  }

  /** Growing keeps an extension one, and a table that became stricter stays so. */
  lemma ActionGrows(before: Table, t: Table, a: Action)
    requires Extends(before, t) && !a.Rework? && ApplyAction(t, a).Some?
    ensures Extends(before, ApplyAction(t, a).value)
    ensures NothingStricter(before, ApplyAction(t, a).value) <==> NothingStricter(before, t) && !ActionBites(t, a)
  {
    var after := ApplyAction(t, a).value;
    if !NothingStricter(before, t) && t.rules == before.rules {
      var name :| name in t.columns && name !in before.columns && !Fillable(t.columns[name]);
      assert name in after.columns && after.columns[name] == t.columns[name];
    }
    if a.AddColumn? && ActionBites(t, a) && a.definition.notNull && !a.definition.default.ValueDefault? {
      assert a.name in after.columns && !Fillable(after.columns[a.name]);
    }
  }

  lemma {:induction false} ActionsGrow(before: Table, t: Table, actions: seq<Action>, isNew: bool)
    requires Extends(before, t)
    requires ClassifyActions(actions, isNew).Some? && ApplyActions(t, actions).Some?
    ensures Extends(before, ApplyActions(t, actions).value)
    ensures NothingStricter(before, ApplyActions(t, actions).value) <==> NothingStricter(before, t) && !ActionsBite(t, actions)
  {
    if actions != [] {
      var n := |actions| - 1;
      ActionsGrow(before, t, actions[..n], isNew);
      ActionGrows(before, ApplyActions(t, actions[..n]).value, actions[n]);
    }
  }

  ghost predicate SchemaExtends(before: Schema, schema: Schema) {
    forall name :: name in before ==> name in schema && Extends(before[name], schema[name])
  }

  ghost predicate SchemaStricter(before: Schema, schema: Schema)
    requires SchemaExtends(before, schema)
  {
    exists name :: name in before && !NothingStricter(before[name], schema[name])
  }

  /** What one accepted statement does to one table of the schema the diff started from. */
  lemma StatementGrows(before: Schema, schema: Schema, s: Statement, created: set<string>, name: string)
    requires SchemaExtends(before, schema) && name in before
    requires ClassifyStatement(s, created).Some? && Apply(schema, s).Some?
    ensures name in Apply(schema, s).value && Extends(before[name], Apply(schema, s).value[name])
    ensures NothingStricter(before[name], Apply(schema, s).value[name])
       <==> NothingStricter(before[name], schema[name])
            && !(Mentions(s) && s.ref.table == name && StatementBites(before, schema, s))
  {
    if s.AlterTable? && s.ref.table == name {
      ActionsGrow(before[name], schema[name], s.actions, s.ref.key in created);
    }
  }

  lemma StatementExactly(before: Schema, schema: Schema, s: Statement, created: set<string>)
    requires SchemaExtends(before, schema)
    requires ClassifyStatement(s, created).Some? && Apply(schema, s).Some?
    ensures SchemaExtends(before, Apply(schema, s).value)
    ensures SchemaStricter(before, Apply(schema, s).value)
       <==> SchemaStricter(before, schema) || StatementBites(before, schema, s)
  {
    var after := Apply(schema, s).value;
    forall name | name in before
      ensures name in after && Extends(before[name], after[name])
      ensures NothingStricter(before[name], after[name])
         <==> NothingStricter(before[name], schema[name])
              && !(Mentions(s) && s.ref.table == name && StatementBites(before, schema, s))
    {
      StatementGrows(before, schema, s, created, name);
    }
    if SchemaStricter(before, schema) {
      var name :| name in before && !NothingStricter(before[name], schema[name]);
      assert !NothingStricter(before[name], after[name]);
    }
    if StatementBites(before, schema, s) {
      assert s.ref.table in before && !NothingStricter(before[s.ref.table], after[s.ref.table]);
    }
  }

  lemma {:induction false} DiffExactly(before: Schema, diff: seq<Statement>)
    requires ClassifyDiff(diff).Some? && ApplyAll(before, diff).Some?
    ensures SchemaExtends(before, ApplyAll(before, diff).value)
    ensures SchemaStricter(before, ApplyAll(before, diff).value) <==> DiffBites(before, diff)
  {
    if diff != [] {
      var n := |diff| - 1;
      DiffExactly(before, diff[..n]);
      StatementExactly(before, ApplyAll(before, diff[..n]).value, diff[n], CreatedBy(diff[..n]));
    }
  }

  ghost predicate OldWritersSurvive(before: Schema, after: Schema) {
    forall w :: Succeeds(before, w) ==> Succeeds(after, w)
  }

  /** After an accepted diff of any length, every insert that worked before still works exactly when no statement bites. */
  lemma OldWritersSurviveExactly(before: Schema, diff: seq<Statement>)
    requires ClassifyDiff(diff).Some? && ApplyAll(before, diff).Some?
    ensures OldWritersSurvive(before, ApplyAll(before, diff).value) <==> !DiffBites(before, diff)
  {
    var after := ApplyAll(before, diff).value;
    DiffExactly(before, diff);
    forall name | name in before ensures Serves(before[name], after[name]) <==> NothingStricter(before[name], after[name]) {
      ServesExactly(before[name], after[name]);
    }
    if DiffBites(before, diff) {
      var name :| name in before && !NothingStricter(before[name], after[name]);
      var w :| Accepts(before[name], w) && !Accepts(after[name], w);
      var here := w.(table := name);
      assert forall t :: Accepts(t, here) == Accepts(t, w);
      assert Succeeds(before, here) && !Succeeds(after, here);
    }
  }

  // ---- when an accepted statement can bite ----

  predicate Mentions(s: Statement) {
    s.CreateTable? || s.CreateIndex? || s.AlterTable?
  }

  /** The tables a diff mentions are filed under keys that tell different tables apart. */
  ghost predicate KeysFaithful(diff: seq<Statement>) {
    forall i, j :: 0 <= i < |diff| && 0 <= j < |diff| && Mentions(diff[i]) && Mentions(diff[j]) ==>
      (diff[i].ref.key == diff[j].ref.key ==> diff[i].ref.table == diff[j].ref.table)
  }

  /** Created tables are not tables of the old schema. */
  ghost predicate CreatesNewNames(before: Schema, diff: seq<Statement>) {
    forall i :: 0 <= i < |diff| && diff[i].CreateTable? ==> diff[i].ref.table !in before
  }

  predicate NullDefaultTrap(a: Action) {
    a.AddColumn? && a.definition.notNull && a.definition.default.NullDefault?
  }

  /** No NOT NULL column with a null DEFAULT is added to a table of the old schema. */
  ghost predicate NoNullDefaults(before: Schema, diff: seq<Statement>) {
    forall i, k :: 0 <= i < |diff| && diff[i].AlterTable? && diff[i].ref.table in before && 0 <= k < |diff[i].actions| ==>
      !NullDefaultTrap(diff[i].actions[k])
  }

  lemma {:induction false} CreatedAreListed(diff: seq<Statement>, key: string)
    requires key in CreatedBy(diff)
    ensures exists i :: 0 <= i < |diff| && diff[i].CreateTable? && diff[i].ref.key == key
  {
    var n := |diff| - 1;
    if key in CreatedBy(diff[..n]) {
      CreatedAreListed(diff[..n], key);
      var i :| 0 <= i < n && diff[..n][i].CreateTable? && diff[..n][i].ref.key == key;
      assert diff[i].CreateTable? && diff[i].ref.key == key;
    } else {
      assert diff[n].CreateTable? && diff[n].ref.key == key;
    }
  }

  lemma {:induction false} ColumnsBiteOnlyByNull(t: Table, actions: seq<Action>)
    requires ClassifyActions(actions, false).Some? && ApplyActions(t, actions).Some?
    requires forall k :: 0 <= k < |actions| ==> !NullDefaultTrap(actions[k])
    ensures !ActionsBite(t, actions)
  {
    if actions != [] {
      ColumnsBiteOnlyByNull(t, actions[..|actions| - 1]);
    }
  }

  lemma {:induction false} ConditionsStopBites(before: Schema, diff: seq<Statement>)
    requires ClassifyDiff(diff).Some? && ApplyAll(before, diff).Some?
    requires KeysFaithful(diff) && CreatesNewNames(before, diff) && NoNullDefaults(before, diff)
    ensures !DiffBites(before, diff)
  {
    if diff != [] {
      var n := |diff| - 1;
      var s, front := diff[n], diff[..n];
      ConditionsStopBites(before, front);
      if Mentions(s) && s.ref.key in CreatedBy(front) {
        CreatedAreListed(front, s.ref.key);
        var k :| 0 <= k < n && front[k].CreateTable? && front[k].ref.key == s.ref.key;
        assert diff[k].CreateTable? && diff[k].ref.table == s.ref.table;
      } else if s.AlterTable? && s.ref.table in before {
        ColumnsBiteOnlyByNull(ApplyAll(before, front).value[s.ref.table], s.actions);
      }
    }
  }

  /** Old writers survive any accepted diff, of any length, under the three conditions on names and defaults. */
  lemma AcceptedDiffsKeepOldWriters(before: Schema, diff: seq<Statement>)
    requires ClassifyDiff(diff).Some? && ApplyAll(before, diff).Some?
    requires KeysFaithful(diff) && CreatesNewNames(before, diff) && NoNullDefaults(before, diff)
    ensures OldWritersSurvive(before, ApplyAll(before, diff).value)
  {
    ConditionsStopBites(before, diff);
    OldWritersSurviveExactly(before, diff);
  }

  // ---- the conditions are needed ----

  /**
   For one accepted new column on an existing table, inserts that worked keep working
   exactly when the column is not NOT NULL with a null DEFAULT.
   */
  lemma NewColumnIsSafeExactly(t: Table, a: Action)
    requires a.AddColumn? && a.name !in t.columns && ClassifyAction(a, false).Some?
    ensures Serves(t, ApplyAction(t, a).value) <==> !NullDefaultTrap(a)
  {
    ActionGrows(t, t, a);
    ServesExactly(t, ApplyAction(t, a).value);
  }

  /** CREATE TABLE IF NOT EXISTS on a table that exists lets a unique index onto old data through. */
  lemma ReusedNameIsATrap() returns (before: Schema, diff: seq<Statement>, w: Insert)
    ensures ClassifyDiff(diff).Some? && KeysFaithful(diff) && NoNullDefaults(before, diff)
    ensures Succeeds(before, w) && ApplyAll(before, diff).Some? && !Succeeds(ApplyAll(before, diff).value, w)
  {
    var ref := TableRef("users", "users");
    before := map["users" := Table(map[], {})];
    var create := CreateTable(ref, true, Table(map[], {}));
    var index := CreateIndex(true, ref, 7);
    diff := [create, index];
    w := Insert("users", map[], {});
    TwoStatements(before, create, index);
  }

  /** So does a new table whose quoted name differs from an old one only in ways the key forgets. */
  lemma ClashingKeysAreATrap() returns (before: Schema, diff: seq<Statement>, w: Insert)
    ensures ClassifyDiff(diff).Some? && CreatesNewNames(before, diff) && NoNullDefaults(before, diff)
    ensures Succeeds(before, w) && ApplyAll(before, diff).Some? && !Succeeds(ApplyAll(before, diff).value, w)
  {
    before := map["users" := Table(map[], {})];
    var create := CreateTable(TableRef("Users", "\"users\""), false, Table(map[], {}));
    var index := CreateIndex(true, TableRef("users", "\"users\""), 7);
    diff := [create, index];
    w := Insert("users", map[], {});
    TwoStatements(before, create, index);
    assert "Users"[0] != "users"[0];
  }

  lemma TwoStatements(before: Schema, a: Statement, b: Statement)
    ensures CreatedBy([a, b]) == Created(b, Created(a, {}))
    ensures ClassifyStatement(a, {}).Some? && ClassifyStatement(b, Created(a, {})).Some? ==> ClassifyDiff([a, b]).Some?
    ensures ApplyAll(before, [a, b]) == (match Apply(before, a) case None => None case Some(mid) => Apply(mid, b))
  {
    var two := [a, b];
    assert two[..1] == [a];
    assert [a][..0] == [];
    assert ClassifyDiff([a]).Some? == ClassifyStatement(a, {}).Some?;
    assert ApplyAll(before, [a]) == Apply(before, a);
    assert CreatedBy([a]) == Created(a, {});
  }
}
