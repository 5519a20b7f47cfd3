/**
 Orders and sorting: the lexicographic order of strings and the sort by staff,
 start, end and role that the worker applies to solved shifts.
 */
module Ordering {
  import opened Shifts

  predicate Le(a: string, b: string) {
    if a == [] then true
    else if b == [] then false
    else a[0] < b[0] || (a[0] == b[0] && Le(a[1..], b[1..]))
  }

  lemma {:induction false} LeTotal(a: string, b: string)
    ensures Le(a, b) || Le(b, a)
  {
    if a != [] && b != [] && a[0] == b[0] {
      LeTotal(a[1..], b[1..]);
    }
  }

  lemma {:induction false} LeAntisymmetric(a: string, b: string)
    requires Le(a, b) && Le(b, a)
    ensures a == b
  {
    if a != [] && b != [] {
      LeAntisymmetric(a[1..], b[1..]);
      assert a == [a[0]] + a[1..] && b == [b[0]] + b[1..];
    }
  }

  lemma {:induction false} LeTransitive(a: string, b: string, c: string)
    requires Le(a, b) && Le(b, c)
    ensures Le(a, c)
  {
    if a != [] && b != [] && c != [] && a[0] == b[0] == c[0] {
      LeTransitive(a[1..], b[1..], c[1..]);
    }
  }

  /** The sort key of a solved shift: staff, start, end, role. */
  predicate ShiftLe(a: Shift, b: Shift) {
    if a.staff != b.staff then Le(a.staff, b.staff)
    else if a.start != b.start then a.start < b.start
    else if a.end != b.end then a.end < b.end
    else Le(a.role, b.role)
  }

  lemma ShiftLeTotal(a: Shift, b: Shift)
    ensures ShiftLe(a, b) || ShiftLe(b, a)
  {
    LeTotal(a.staff, b.staff);
    LeTotal(a.role, b.role);
  }

  lemma ShiftLeTransitive(a: Shift, b: Shift, c: Shift)
    requires ShiftLe(a, b) && ShiftLe(b, c)
    ensures ShiftLe(a, c)
  {
    if a.staff == b.staff == c.staff {
      if a.start == b.start == c.start && a.end == b.end == c.end {
        LeTransitive(a.role, b.role, c.role);
      }
    } else if a.staff != b.staff && b.staff != c.staff {
      LeTransitive(a.staff, b.staff, c.staff);
      if a.staff == c.staff {
        LeAntisymmetric(a.staff, b.staff);
      }
    }
  }

  ghost predicate SortedShifts(s: seq<Shift>) {
    forall i, j :: 0 <= i < j < |s| ==> ShiftLe(s[i], s[j])
  }

  function InsertShift(x: Shift, s: seq<Shift>): seq<Shift> {
    if s == [] then [x]
    else if ShiftLe(x, s[0]) then [x] + s
    else [s[0]] + InsertShift(x, s[1..])
  }

  function SortShifts(s: seq<Shift>): seq<Shift> {
    if s == [] then [] else InsertShift(s[0], SortShifts(s[1..]))
  }

  lemma {:induction false} InsertShiftSorts(x: Shift, s: seq<Shift>)
    requires SortedShifts(s)
    ensures SortedShifts(InsertShift(x, s))
    ensures multiset(InsertShift(x, s)) == multiset{x} + multiset(s)
  {
    if s == [] {
    } else if ShiftLe(x, s[0]) {
      forall i | 0 <= i < |s| ensures ShiftLe(x, s[i]) {
        if i > 0 {
          ShiftLeTransitive(x, s[0], s[i]);
        }
      }
    } else {
      InsertShiftSorts(x, s[1..]);
      ShiftLeTotal(x, s[0]);
      var rest := InsertShift(x, s[1..]);
      assert s == [s[0]] + s[1..];
      forall i | 0 <= i < |rest| ensures ShiftLe(s[0], rest[i]) {
        assert rest[i] in multiset(rest);
        assert rest[i] == x || rest[i] in s[1..];
      }
    }
  }

  lemma {:induction false} SortShiftsSorts(s: seq<Shift>)
    ensures SortedShifts(SortShifts(s))
    ensures multiset(SortShifts(s)) == multiset(s)
  {
    if s != [] {
      SortShiftsSorts(s[1..]);
      InsertShiftSorts(s[0], SortShifts(s[1..]));
      assert s == [s[0]] + s[1..];
    }
  }

  /** No two different shifts of the collection share a sort key. */
  ghost predicate KeysApart(s: seq<Shift>) {
    forall i, j :: 0 <= i < |s| && 0 <= j < |s| && ShiftLe(s[i], s[j]) && ShiftLe(s[j], s[i]) ==> s[i] == s[j]
  }

  lemma SortedHeadsAgree(a: seq<Shift>, b: seq<Shift>)
    requires SortedShifts(a) && SortedShifts(b) && multiset(a) == multiset(b) && KeysApart(a) && a != []
    ensures b != [] && a[0] == b[0]
  {
    assert a[0] in multiset(b);
    assert b != [] && b[0] in multiset(a);
    var i :| 0 <= i < |b| && b[i] == a[0];
    var j :| 0 <= j < |a| && a[j] == b[0];
    ShiftLeReflexive(a[0]);
    assert ShiftLe(a[0], a[j]);
    ShiftLeReflexive(b[0]);
    assert ShiftLe(b[0], b[i]);
    assert ShiftLe(a[j], a[0]);
  }

  lemma TailsSame(a: seq<Shift>, b: seq<Shift>)
    requires a != [] && b != [] && a[0] == b[0] && multiset(a) == multiset(b)
    ensures multiset(a[1..]) == multiset(b[1..])
  {
    assert a == [a[0]] + a[1..] && b == [b[0]] + b[1..];
    assert multiset(a[1..]) == multiset(a) - multiset{a[0]};
    assert multiset(b[1..]) == multiset(b) - multiset{b[0]};
  }

  /** A sorted arrangement is unique when keys are apart. */
  lemma {:induction false} SortedUnique(a: seq<Shift>, b: seq<Shift>)
    requires SortedShifts(a) && SortedShifts(b) && multiset(a) == multiset(b) && KeysApart(a)
    ensures a == b
  {
    if a == [] {
      assert |multiset(b)| == 0;
    } else {
      SortedHeadsAgree(a, b);
      TailsSame(a, b);
      SortedUnique(a[1..], b[1..]);
      assert a == [a[0]] + a[1..] && b == [b[0]] + b[1..];
    }
  }

  lemma ShiftLeReflexive(a: Shift)
    ensures ShiftLe(a, a)
  {
    LeTotal(a.role, a.role);
  }

  /** Two positions of a sequence, in either order, are a pair of its multiset. */
  lemma PairOfPositions<T>(s: seq<T>, i: nat, j: nat)
    requires i < j < |s|
    ensures multiset{s[i], s[j]} <= multiset(s)
  {
    assert s == s[..i] + [s[i]] + s[i + 1..j] + [s[j]] + s[j + 1..];
  }

  lemma {:induction false} PositionsOfPair<T>(s: seq<T>, a: T, b: T) returns (i: nat, j: nat)
    requires multiset{a, b} <= multiset(s)
    ensures i < |s| && j < |s| && i != j && s[i] == a && s[j] == b
  {
    assert a in multiset(s);
    i :| 0 <= i < |s| && s[i] == a;
    assert s == s[..i] + [s[i]] + s[i + 1..];
    var rest := s[..i] + s[i + 1..];
    assert multiset(rest) == multiset(s) - multiset{a};
    assert b in multiset(rest);
    var k :| 0 <= k < |rest| && rest[k] == b;
    j := if k < i then k else k + 1;
  }
}
