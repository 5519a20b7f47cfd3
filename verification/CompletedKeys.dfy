/**
 A worker's bounded memory of completed job keys: an ordered map in which
 remembering a key makes it newest and the oldest keys are evicted first.
 */
module CompletedKeys {

  function Without(keys: seq<string>, key: string): seq<string> {
    if keys == [] then []
    else if keys[0] == key then Without(keys[1..], key)
    else [keys[0]] + Without(keys[1..], key)
  }

  function Newest(keys: seq<string>, bound: nat): seq<string> {
    if |keys| <= bound then keys else keys[|keys| - bound..]
  }

  function Remembered(keys: seq<string>, key: string, bound: nat): seq<string> {
    Newest(Without(keys, key) + [key], bound)
  }

  ghost predicate Distinct(keys: seq<string>) {
    forall i, j :: 0 <= i < j < |keys| ==> keys[i] != keys[j]
  }

  class Cache {
    const bound: nat
    var keys: seq<string>   // oldest first

    ghost predicate Valid()
      reads this
    {
      0 < bound && |keys| <= bound && Distinct(keys)
    }

    constructor (bound: nat)
      requires 0 < bound
      ensures Valid() && this.bound == bound && keys == []
    {
      this.bound := bound;
      keys := [];
    }

    method Remember(key: string)
      requires Valid()
      modifies this
      ensures Valid()
      ensures keys == Remembered(old(keys), key, bound)
    {
      WithoutIsDistinct(keys, key);
      var rest := Without(keys, key);
      keys := rest + [key];
      ghost var full := keys;
      while |keys| > bound
        invariant keys == full[|full| - |keys|..]
        invariant |keys| <= |full| && (bound <= |keys| || keys == full)
        invariant Distinct(keys)
      {
        keys := keys[1..];
      }
    }
  }

  lemma {:induction false} WithoutIsDistinct(keys: seq<string>, key: string)
    requires Distinct(keys)
    ensures Distinct(Without(keys, key)) && key !in Without(keys, key)
    ensures forall k :: k in Without(keys, key) ==> k in keys
    ensures |Without(keys, key)| <= |keys|
  {
    if keys != [] {
      assert keys[0] !in keys[1..];
      WithoutIsDistinct(keys[1..], key);
      assert forall k :: k in keys[1..] ==> k in keys;
    }
  }

  lemma {:induction false} WithoutSplits(a: seq<string>, b: seq<string>, key: string)
    ensures Without(a + b, key) == Without(a, key) + Without(b, key)
  {
    if a == [] {
      assert a + b == b;
    } else {
      assert (a + b)[1..] == a[1..] + b;
      WithoutSplits(a[1..], b, key);
    }
  }

  function RememberedAll(keys: seq<string>, added: seq<string>, bound: nat): seq<string> {
    if added == [] then keys
    else Remembered(RememberedAll(keys, added[..|added| - 1], bound), added[|added| - 1], bound)
  }

  ghost predicate HasTail(keys: seq<string>, key: string, later: set<string>) {
    exists p: nat :: TailAt(keys, key, later, p)
  }

  ghost predicate TailAt(keys: seq<string>, key: string, later: set<string>, p: nat) {
    p < |keys| && keys[p] == key && forall q :: p < q < |keys| ==> keys[q] in later
  }

  lemma {:induction false} DistinctFits(keys: seq<string>, pool: set<string>)
    requires Distinct(keys) && forall k :: k in keys ==> k in pool
    ensures |keys| <= |pool|
  {
    if keys != [] {
      DistinctFits(keys[1..], pool - {keys[0]});
    }
  }

  lemma WithoutKeepsTail(keys: seq<string>, key: string, later: set<string>, added: string)
    requires HasTail(keys, key, later) && added != key
    ensures HasTail(Without(keys, added) + [added], key, later + {added})
  {
    var p: nat :| TailAt(keys, key, later, p);
    var before, tail := keys[..p], keys[p + 1..];
    assert keys == before + ([key] + tail);
    WithoutSplits(before, [key] + tail, added);
    WithoutSplits([key], tail, added);
    WithoutStays(tail, added, later);
    var kept := Without(tail, added) + [added];
    var full := Without(keys, added) + [added];
    var at := |Without(before, added)|;
    assert full == Without(before, added) + [key] + kept;
    forall q | at < q < |full| ensures full[q] in later + {added} {
      assert full[q] == kept[q - at - 1];
    }
    assert TailAt(full, key, later + {added}, at);
  }

  lemma {:induction false} WithoutStays(keys: seq<string>, key: string, pool: set<string>)
    requires forall q :: 0 <= q < |keys| ==> keys[q] in pool
    ensures forall q :: 0 <= q < |Without(keys, key)| ==> Without(keys, key)[q] in pool
  {
    if keys != [] {
      WithoutStays(keys[1..], key, pool);
    }
  }

  lemma CutKeepsTail(full: seq<string>, key: string, later: set<string>, cut: nat, p: nat)
    requires cut <= p && TailAt(full, key, later, p)
    ensures TailAt(full[cut..], key, later, p - cut)
  {
    var result := full[cut..];
    forall q | p - cut < q < |result| ensures result[q] in later {
      assert result[q] == full[q + cut];
    }
  }

  lemma SuffixIsDistinct(full: seq<string>, cut: nat)
    requires Distinct(full) && cut <= |full|
    ensures Distinct(full[cut..])
  {
  }

  lemma TailFits(full: seq<string>, key: string, later: set<string>, p: nat)
    requires Distinct(full) && TailAt(full, key, later, p)
    ensures |full| - p - 1 <= |later|
  {
    var tail := full[p + 1..];
    forall q | 0 <= q < |tail| ensures tail[q] in later {
      assert tail[q] == full[p + 1 + q];
    }
    DistinctFits(tail, later);
  }

  lemma SuffixKeepsTail(full: seq<string>, key: string, later: set<string>, bound: nat)
    requires Distinct(full) && HasTail(full, key, later) && |later| < bound < |full|
    ensures HasTail(full[|full| - bound..], key, later)
  {
    var p: nat :| TailAt(full, key, later, p);
    TailFits(full, key, later, p);
    CutKeepsTail(full, key, later, |full| - bound, p);
  }

  lemma NewestKeepsTail(full: seq<string>, key: string, later: set<string>, bound: nat)
    requires Distinct(full) && HasTail(full, key, later) && |later| < bound
    ensures Distinct(Newest(full, bound)) && HasTail(Newest(full, bound), key, later)
  {
    if |full| > bound {
      SuffixIsDistinct(full, |full| - bound);
      SuffixKeepsTail(full, key, later, bound);
    }
  }

  lemma RememberKeepsTail(keys: seq<string>, key: string, later: set<string>, added: string, bound: nat)
    requires Distinct(keys) && HasTail(keys, key, later)
    requires added != key && |later + {added}| < bound
    ensures Distinct(Remembered(keys, added, bound))
    ensures HasTail(Remembered(keys, added, bound), key, later + {added})
  {
    WithoutIsDistinct(keys, added);
    WithoutKeepsTail(keys, key, later, added);
    NewestKeepsTail(Without(keys, added) + [added], key, later + {added}, bound);
  }

  /** Oldest first: a remembered key is only ever forgotten after `bound` other keys were remembered. */
  lemma {:induction false} ForgottenOnlyForNewer(keys: seq<string>, key: string, added: seq<string>, bound: nat)
    requires Distinct(keys) && key !in added
    requires |set k | k in added| < bound
    ensures key in RememberedAll(Remembered(keys, key, bound), added, bound)
    ensures Distinct(RememberedAll(Remembered(keys, key, bound), added, bound))
    ensures HasTail(RememberedAll(Remembered(keys, key, bound), added, bound), key, set k | k in added)
  {
    var first := Remembered(keys, key, bound);
    var later := set k | k in added;
    if added == [] {
      WithoutIsDistinct(keys, key);
      assert TailAt(first, key, later, |first| - 1);
    } else {
      var n := |added| - 1;
      var front := set k | k in added[..n];
      assert added == added[..n] + [added[n]];
      assert front + {added[n]} == later;
      assert |front| <= |later| by {
        assert later - front + front == later;
      }
      ForgottenOnlyForNewer(keys, key, added[..n], bound);
      RememberKeepsTail(RememberedAll(first, added[..n], bound), key, front, added[n], bound);
    }
  }

  /** Remembering adds that key and no other, makes it the newest, and keeps the order of the rest. */
  lemma RememberingAddsOne(keys: seq<string>, key: string, bound: nat)
    requires Distinct(keys) && 0 < bound
    ensures var after := Remembered(keys, key, bound);
            && |after| > 0 && after[|after| - 1] == key
            && (forall k :: k in after ==> k == key || k in keys)
            && (|keys| < bound ==> forall k :: k in keys ==> k in after)
  {
    WithoutIsDistinct(keys, key);
    WithoutKeepsOthers(keys, key);
    var full := Without(keys, key) + [key];
    assert full[|full| - 1] == key;
    assert forall k :: k in Newest(full, bound) ==> k in full;
  }

  lemma {:induction false} WithoutKeepsOthers(keys: seq<string>, key: string)
    ensures forall k :: k in keys && k != key ==> k in Without(keys, key)
  {
    if keys != [] {
      WithoutKeepsOthers(keys[1..], key);
      assert keys == [keys[0]] + keys[1..];
    }
  }
}
