/**
 Coalescing preserves who works when: it fails exactly on overlaps, and otherwise
 keeps every duty and break, leaves nothing joinable, is idempotent and does not
 depend on the order of its input.
 */
module CoalesceMeaning {
  import opened Results
  import opened Shifts
  import opened Ordering
  import opened Coalesce

  lemma AppendedDuty(p: seq<Shift>, x: Shift, staff: string, role: string, t: int)
    ensures OnDuty(p + [x], staff, role, t) <==> OnDuty(p, staff, role, t) || Works(x, staff, role, t)
  {
    assert forall s :: s in p + [x] <==> s in p || s == x;
  }

  lemma AppendedBreak(p: seq<Shift>, x: Shift, staff: string, role: string, kind: string, paid: bool, t: int)
    ensures OnBreak(p + [x], staff, role, kind, paid, t)
            <==> OnBreak(p, staff, role, kind, paid, t) || Rests(x, staff, role, kind, paid, t)
  {
    assert forall s :: s in p + [x] <==> s in p || s == x;
  }

  lemma AppendKeepsMeaning(p: seq<Shift>, c: seq<Shift>, x: Shift)
    requires SameMeaning(p, c)
    ensures SameMeaning(p + [x], c + [x])
  {
    forall staff, role, t ensures OnDuty(p + [x], staff, role, t) <==> OnDuty(c + [x], staff, role, t) {
      AppendedDuty(p, x, staff, role, t);
      AppendedDuty(c, x, staff, role, t);
    }
    forall staff, role, kind, paid, t
      ensures OnBreak(p + [x], staff, role, kind, paid, t) <==> OnBreak(c + [x], staff, role, kind, paid, t)
    {
      AppendedBreak(p, x, staff, role, kind, paid, t);
      AppendedBreak(c, x, staff, role, kind, paid, t);
    }
  }

  lemma JoinKeepsMeaning(scope: Scope, p: seq<Shift>, c: seq<Shift>, x: Shift)
    requires SameMeaning(p, c) && c != [] && AllValid(c) && ValidShift(x)
    requires c[|c| - 1].staff == x.staff && Touches(c[|c| - 1], x)
    ensures SameMeaning(p + [x], c[..|c| - 1] + [Join(scope, c[|c| - 1], x)])
  {
    var front, last := c[..|c| - 1], c[|c| - 1];
    var joined := Join(scope, last, x);
    assert c == front + [last];
    forall staff, role, t ensures OnDuty(p + [x], staff, role, t) <==> OnDuty(front + [joined], staff, role, t) {
      AppendedDuty(p, x, staff, role, t);
      AppendedDuty(front, last, staff, role, t);
      AppendedDuty(front, joined, staff, role, t);
      JoinMeans(scope, last, x, staff, role, t);
    }
    JoinCarriesBoth(scope, last, x);
    forall staff, role, kind, paid, t
      ensures OnBreak(p + [x], staff, role, kind, paid, t) <==> OnBreak(front + [joined], staff, role, kind, paid, t)
    {
      AppendedBreak(p, x, staff, role, kind, paid, t);
      AppendedBreak(front, last, staff, role, kind, paid, t);
      AppendedBreak(front, joined, staff, role, kind, paid, t);
      CarriersRest(joined, last, x, staff, role, kind, paid, t);
    }
  }

  /** Output shifts are ordered, disjoint per person, and never joinable. */
  ghost predicate Settled(c: seq<Shift>) {
    forall i, j :: 0 <= i < j < |c| ==>
      && Le(c[i].staff, c[j].staff)
      && (c[i].staff == c[j].staff ==> c[i].end <= c[j].start && (c[i].role == c[j].role ==> c[i].end < c[j].start))
  }

  /** How far the fold has come: `c` stands for the ordered prefix `p`. */
  ghost predicate StandsFor(p: seq<Shift>, c: seq<Shift>) {
    && AllValid(c) && Settled(c) && !HasOverlap(p)
    && (p == [] <==> c == [])
    && (p != [] ==>
          && c[|c| - 1].staff == p[|p| - 1].staff
          && c[|c| - 1].end == p[|p| - 1].end
          && forall s :: s in p && s.staff == c[|c| - 1].staff ==> s.end <= c[|c| - 1].end)
  }

  lemma RefusalIsOverlap(scope: Scope, p: seq<Shift>, c: seq<Shift>, x: Shift)
    requires SortedShifts(p + [x]) && AllValid(p + [x]) && StandsFor(p, c)
    requires Extend(scope, c, x).None?
    ensures HasOverlap(p + [x])
  {
    var n := |p| - 1;
    assert (p + [x])[n] == p[n] && (p + [x])[n + 1] == x;
    assert ShiftLe(p[n], x);
    assert x in p + [x];
    assert Overlap((p + [x])[n], (p + [x])[n + 1]);
  }

  lemma NoNewOverlap(p: seq<Shift>, c: seq<Shift>, x: Shift)
    requires SortedShifts(p + [x]) && StandsFor(p, c)
    requires c != [] && c[|c| - 1].staff == x.staff ==> c[|c| - 1].end <= x.start
    ensures !HasOverlap(p + [x])
  {
    var q := p + [x];
    forall i, j | 0 <= i < j < |q| ensures !Overlap(q[i], q[j]) {
      if j < |p| {
        assert !Overlap(p[i], p[j]);
      } else if q[i].staff == x.staff {
        assert q[i] == p[i] && p[i] in p;
        StaffBetween(p, x, i);
      }
    }
  }

  /** In a sorted list, a person seen before the last shift and now again is the last shift's person. */
  lemma StaffBetween(p: seq<Shift>, x: Shift, i: nat)
    requires SortedShifts(p + [x]) && i < |p| && p[i].staff == x.staff
    ensures p[|p| - 1].staff == x.staff
  {
    var n := |p| - 1;
    assert (p + [x])[i] == p[i] && (p + [x])[n] == p[n] && (p + [x])[n + 1] == x;
    assert ShiftLe((p + [x])[n], (p + [x])[n + 1]);
    if i < n {
      assert ShiftLe((p + [x])[i], (p + [x])[n]);
      if p[n].staff != x.staff {
        LeAntisymmetric(p[n].staff, x.staff);
      }
    }
  }

  lemma LastStaffLe(p: seq<Shift>, x: Shift)
    requires SortedShifts(p + [x]) && p != []
    ensures Le(p[|p| - 1].staff, x.staff)
  {
    var n := |p| - 1;
    assert (p + [x])[n] == p[n] && (p + [x])[n + 1] == x;
    LeTotal(x.staff, x.staff);
  }

  lemma AppendSettles(p: seq<Shift>, c: seq<Shift>, x: Shift)
    requires SortedShifts(p + [x]) && StandsFor(p, c) && ValidShift(x)
    requires c != [] && c[|c| - 1].staff == x.staff ==> c[|c| - 1].end <= x.start && !Touches(c[|c| - 1], x)
    ensures Settled(c + [x])
  {
    var d := c + [x];
    forall i, j | 0 <= i < j < |d|
      ensures Le(d[i].staff, d[j].staff)
      ensures d[i].staff == d[j].staff ==> d[i].end <= d[j].start && (d[i].role == d[j].role ==> d[i].end < d[j].start)
    {
      if j == |c| {
        var last := c[|c| - 1];
        LastStaffLe(p, x);
        if i < |c| - 1 {
          LeTransitive(c[i].staff, last.staff, x.staff);
          if c[i].staff == x.staff {
            LeAntisymmetric(c[i].staff, last.staff);
            assert ValidShift(last);
          }
        }
      }
    }
  }

  lemma JoinSettles(scope: Scope, p: seq<Shift>, c: seq<Shift>, x: Shift)
    requires StandsFor(p, c) && ValidShift(x) && c != []
    requires c[|c| - 1].staff == x.staff && Touches(c[|c| - 1], x)
    ensures Settled(c[..|c| - 1] + [Join(scope, c[|c| - 1], x)])
  {
  }

  lemma ExtendStands(scope: Scope, p: seq<Shift>, c: seq<Shift>, x: Shift)
    requires SortedShifts(p + [x]) && AllValid(p + [x]) && StandsFor(p, c)
    requires Extend(scope, c, x).Some?
    ensures StandsFor(p + [x], Extend(scope, c, x).value)
  {
    var d := Extend(scope, c, x).value;
    assert x in p + [x];
    NoNewOverlap(p, c, x);
    if c != [] && c[|c| - 1].staff == x.staff && Touches(c[|c| - 1], x) {
      JoinSettles(scope, p, c, x);
      assert c[|c| - 1] in c;
      JoinIsValid(scope, c[|c| - 1], x);
    } else {
      AppendSettles(p, c, x);
    }
    forall s | s in p + [x] && s.staff == d[|d| - 1].staff ensures s.end <= d[|d| - 1].end {
      if s in p {
        var i :| 0 <= i < |p| && p[i] == s;
        StaffBetween(p, x, i);
      }
    }
  }

  lemma {:induction false} FoldStands(scope: Scope, ordered: seq<Shift>)
    requires SortedShifts(ordered) && AllValid(ordered)
    ensures Fold(scope, ordered).None? ==> HasOverlap(ordered)
    ensures Fold(scope, ordered).Some? ==>
              StandsFor(ordered, Fold(scope, ordered).value) && SameMeaning(ordered, Fold(scope, ordered).value)
  {
    if ordered != [] {
      var n := |ordered| - 1;
      var p, x := ordered[..n], ordered[n];
      assert ordered == p + [x];
      FoldStands(scope, p);
      match Fold(scope, p) {
        case None =>
          var i, j :| 0 <= i < j < |p| && Overlap(p[i], p[j]);
          assert Overlap(ordered[i], ordered[j]);
        case Some(c) =>
          match Extend(scope, c, x) {
            case None => RefusalIsOverlap(scope, p, c, x);
            case Some(d) =>
              ExtendStands(scope, p, c, x);
              if c != [] && c[|c| - 1].staff == x.staff && Touches(c[|c| - 1], x) {
                JoinKeepsMeaning(scope, p, c, x);
              } else {
                AppendKeepsMeaning(p, c, x);
              }
          }
      }
    }
  }

  // ---- what sorting leaves alone ----

  lemma OverlapSurvivesReordering(a: seq<Shift>, b: seq<Shift>)
    requires multiset(a) == multiset(b) && HasOverlap(a)
    ensures HasOverlap(b)
  {
    var i, j :| 0 <= i < j < |a| && Overlap(a[i], a[j]);
    PairOfPositions(a, i, j);
    var k, l := PositionsOfPair(b, a[i], a[j]);
    if k < l {
      assert Overlap(b[k], b[l]);
    } else {
      assert Overlap(b[l], b[k]);
    }
  }

  lemma MeaningSurvivesReordering(a: seq<Shift>, b: seq<Shift>, c: seq<Shift>)
    requires multiset(a) == multiset(b) && SameMeaning(b, c)
    ensures SameMeaning(a, c)
  {
    assert forall s :: s in a <==> s in multiset(a);
    assert forall s :: s in b <==> s in multiset(b);
    forall staff, role, t ensures OnDuty(a, staff, role, t) <==> OnDuty(c, staff, role, t) {
      assert OnDuty(a, staff, role, t) <==> OnDuty(b, staff, role, t);
    }
    forall staff, role, kind, paid, t
      ensures OnBreak(a, staff, role, kind, paid, t) <==> OnBreak(c, staff, role, kind, paid, t)
    {
      assert OnBreak(a, staff, role, kind, paid, t) <==> OnBreak(b, staff, role, kind, paid, t);
    }
  }

  lemma ValiditySurvivesReordering(a: seq<Shift>, b: seq<Shift>)
    requires multiset(a) == multiset(b) && AllValid(a)
    ensures AllValid(b)
  {
    forall s | s in b ensures ValidShift(s) {
      assert s in multiset(b);
    }
  }

  // ---- the main results ----

  /** Coalescing fails exactly when two shifts of one person overlap. */
  lemma FailsExactlyOnOverlap(scope: Scope, solved: seq<Shift>)
    requires AllValid(solved)
    ensures Coalesced(scope, solved).None? <==> HasOverlap(solved)
  {
    var ordered := SortShifts(solved);
    SortShiftsSorts(solved);
    ValiditySurvivesReordering(solved, ordered);
    FoldStands(scope, ordered);
    if HasOverlap(solved) {
      OverlapSurvivesReordering(solved, ordered);
    }
    if HasOverlap(ordered) {
      OverlapSurvivesReordering(ordered, solved);
    }
  }

  /** Otherwise everyone is on duty and on break exactly when they were, and the shifts are valid, disjoint and settled. */
  lemma CoalescingKeepsMeaning(scope: Scope, solved: seq<Shift>)
    requires AllValid(solved) && Coalesced(scope, solved).Some?
    ensures var c := Coalesced(scope, solved).value;
            SameMeaning(solved, c) && AllValid(c) && Settled(c) && !HasOverlap(c)
  {
    var ordered := SortShifts(solved);
    SortShiftsSorts(solved);
    ValiditySurvivesReordering(solved, ordered);
    FoldStands(scope, ordered);
    MeaningSurvivesReordering(solved, ordered, Fold(scope, ordered).value);
  }

  /** Same shifts in any order, same result: ids, order and all. */
  lemma OrderDoesNotMatter(scope: Scope, a: seq<Shift>, b: seq<Shift>)
    requires AllValid(a) && multiset(a) == multiset(b)
    ensures Coalesced(scope, a) == Coalesced(scope, b)
  {
    ValiditySurvivesReordering(a, b);
    FailsExactlyOnOverlap(scope, a);
    FailsExactlyOnOverlap(scope, b);
    if HasOverlap(a) {
      OverlapSurvivesReordering(a, b);
    } else {
      if HasOverlap(b) {
        OverlapSurvivesReordering(b, a);
      }
      SortShiftsSorts(a);
      SortShiftsSorts(b);
      var ordered := SortShifts(a);
      if HasOverlap(ordered) {
        OverlapSurvivesReordering(ordered, a);
      }
      ValiditySurvivesReordering(a, ordered);
      DisjointKeysApart(ordered);
      SortedUnique(ordered, SortShifts(b));
    }
  }

  lemma DisjointKeysApart(s: seq<Shift>)
    requires AllValid(s) && !HasOverlap(s)
    ensures KeysApart(s)
  {
    forall i, j | 0 <= i < |s| && 0 <= j < |s| && ShiftLe(s[i], s[j]) && ShiftLe(s[j], s[i]) ensures s[i] == s[j] {
      if s[i].staff != s[j].staff {
        LeAntisymmetric(s[i].staff, s[j].staff);
      }
      assert ValidShift(s[i]) && ValidShift(s[j]);
      assert Overlap(s[i], s[j]) && Overlap(s[j], s[i]);
    }
  }

  lemma SettledPrefix(c: seq<Shift>, n: nat)
    requires Settled(c) && AllValid(c) && n < |c|
    ensures Settled(c[..n]) && AllValid(c[..n])
    ensures n > 0 && c[n - 1].staff == c[n].staff ==>
              c[n - 1].end <= c[n].start && (c[n - 1].role == c[n].role ==> c[n - 1].end < c[n].start)
  {
  }

  lemma ApartExtends(scope: Scope, done: seq<Shift>, next: Shift)
    requires done != [] ==>
               var last := done[|done| - 1];
               last.staff == next.staff ==> last.end <= next.start && (last.role == next.role ==> last.end < next.start)
    ensures Extend(scope, done, next) == Some(done + [next])
  {
  }

  lemma {:induction false} SettledFoldsToItself(scope: Scope, c: seq<Shift>)
    requires Settled(c) && AllValid(c)
    ensures Fold(scope, c) == Some(c)
  {
    if c != [] {
      var n := |c| - 1;
      var front := c[..n];
      SettledPrefix(c, n);
      SettledFoldsToItself(scope, front);
      assert c == front + [c[n]];
      ApartExtends(scope, front, c[n]);
    }
  }

  lemma SettledIsSorted(c: seq<Shift>)
    requires Settled(c) && AllValid(c)
    ensures SortedShifts(c) && !HasOverlap(c)
  {
    forall i, j | 0 <= i < j < |c| ensures ShiftLe(c[i], c[j]) && !Overlap(c[i], c[j]) {
      assert ValidShift(c[i]) && ValidShift(c[j]);
    }
  }

  /** Coalescing its own result changes nothing. */
  lemma CoalescingIsIdempotent(scope: Scope, solved: seq<Shift>)
    requires AllValid(solved) && Coalesced(scope, solved).Some?
    ensures var c := Coalesced(scope, solved).value;
            Coalesced(scope, c) == Some(c)
  {
    var c := Coalesced(scope, solved).value;
    CoalescingKeepsMeaning(scope, solved);
    SettledIsSorted(c);
    SortShiftsSorts(c);
    DisjointKeysApart(c);
    SortedUnique(c, SortShifts(c));
    SettledFoldsToItself(scope, c);
  }
}
