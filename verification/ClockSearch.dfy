/**
 The arithmetic core of the wall-clock solver, over any clock that reads a number at
 every instant: the bounded search for an instant at which it reads a target, and
 the quarter-hour scan around an instant.
 */
module ClockSearch {
  type Clock = int -> int

  import opened Calendar

  function Iterate(clock: Clock, target: int, guess: int, attempts: nat): int
    decreases attempts
  {
    if attempts == 0 then guess
    else
      var delta := target - clock(guess);
      if delta == 0 then guess else Iterate(clock, target, guess + delta, attempts - 1)
  }

  method Search(clock: Clock, target: int) returns (guess: int)
    ensures guess == Iterate(clock, target, target, 4)
  {
    guess := target;
    var attempt := 0;
    while attempt < 4
      invariant 0 <= attempt <= 4
      invariant Iterate(clock, target, guess, 4 - attempt) == Iterate(clock, target, target, 4)
    {
      var delta := target - clock(guess);
      guess := guess + delta;
      if delta == 0 { break; }
      attempt := attempt + 1;
    }
  }

  predicate Near(target: int, u: int) { target - DAY <= u <= target + DAY }

  /** Near the target the clock is at most a day off, by `a` before instant `s` and by `b` from then on. */
  ghost predicate OneTransition(clock: Clock, target: int, s: int, a: int, b: int) {
    forall u :: Near(target, u) ==> clock(u) == u + (if u < s then a else b) && -DAY <= clock(u) - u <= DAY
  }

  ghost predicate Reads(clock: Clock, target: int) { exists u :: Near(target, u) && clock(u) == target }

  lemma OneIteration(clock: Clock, target: int, guess: int, n: nat)
    requires n > 0
    ensures Iterate(clock, target, guess, n) ==
            if clock(guess) == target then guess else Iterate(clock, target, target - (clock(guess) - guess), n - 1)
  {
    assert guess + (target - clock(guess)) == target - (clock(guess) - guess);
  }

  lemma OneCorrection(clock: Clock, target: int, guess: int, next: int, n: nat)
    requires n > 0 && clock(guess) != target && next == target - (clock(guess) - guess)
    ensures Iterate(clock, target, guess, n) == Iterate(clock, target, next, n - 1)
  {
    OneIteration(clock, target, guess, n);
  }

  lemma FourIterations(clock: Clock, target: int, s: int, a: int, b: int)
    requires OneTransition(clock, target, s, a, b)
    ensures var guess := Iterate(clock, target, target, 4);
            Near(target, guess) && (clock(guess) == target <==> Reads(clock, target))
  {
    var u := target - (clock(target) - target);
    assert Near(target, target) && Near(target, u);
    var v := target - (clock(u) - u);
    assert Near(target, v);
    OneIteration(clock, target, target, 4);
    OneIteration(clock, target, u, 3);
    OneIteration(clock, target, v, 2);
    OneIteration(clock, target, u, 1);
    if Reads(clock, target) {
      var w :| Near(target, w) && clock(w) == target;
    }
  }

  // ---- a clock that is misread before some moment ----

  /**
   The search reads the clock as it is from `first` on and centuries late before; `hit` recognises
   the target, except on clocks a thousand years away.
   */
  ghost predicate Misreads(reading: Clock, clock: Clock, hit: int -> bool, target: int, first: int) {
    && target >= first
    && (forall u :: -DAY <= clock(u) - u <= DAY)
    && (forall u :: reading(u) >= first)
    && (forall u :: clock(u) >= first ==> reading(u) == clock(u))
    && (forall u :: Near(target, u) && clock(u) < first ==> reading(u) >= target + 365 * 1890 * DAY)
    && (forall u :: clock(u) >= first - 3 * DAY ==> (hit(u) <==> clock(u) == target))
    && (target <= first + 2 * DAY ==> forall u :: u <= target - 365 * 1000 * DAY ==> !hit(u))
  }

  /** The search's first two readings are not misread. */
  predicate Legible(clock: Clock, target: int, first: int) {
    clock(target) >= first && clock(target - (clock(target) - target)) >= first
  }

  lemma {:induction false} DriftIsSlow(reading: Clock, target: int, guess: int, n: nat)
    requires forall u :: reading(u) >= target - 2 * DAY
    ensures Iterate(reading, target, guess, n) <= guess + 2 * n * DAY
    decreases n
  {
    if n > 0 && target - reading(guess) != 0 {
      DriftIsSlow(reading, target, guess + (target - reading(guess)), n - 1);
    }
  }

  /** Once a guess near the target is misread, the corrections left do not make up for it. */
  lemma MisreadIsLost(reading: Clock, clock: Clock, hit: int -> bool, target: int, first: int, guess: int, n: nat)
    requires Misreads(reading, clock, hit, target, first)
    requires 1 <= n <= 4 && Near(target, guess) && clock(guess) < first
    ensures !hit(Iterate(reading, target, guess, n))
  {
    OneIteration(reading, target, guess, n);
    assert -DAY <= clock(guess) - guess;
    DriftIsSlow(reading, target, target - (reading(guess) - guess), n - 1);
  }

  /** What the four iterations come to, and whether it hits. */
  ghost predicate EndsWell(reading: Clock, clock: Clock, hit: int -> bool, target: int, first: int) {
    var guess := Iterate(reading, target, target, 4);
    && (hit(guess) <==> Reads(clock, target) && Legible(clock, target, first))
    && (hit(guess) ==> Near(target, guess) && clock(guess) == target)
  }

  lemma IllegibleEnds(reading: Clock, clock: Clock, hit: int -> bool, target: int, first: int)
    requires Misreads(reading, clock, hit, target, first) && !Legible(clock, target, first)
    ensures EndsWell(reading, clock, hit, target, first)
  {
    if clock(target) < first {
      MisreadIsLost(reading, clock, hit, target, first, target, 4);
    } else {
      SecondIsLost(reading, clock, hit, target, first, target - (clock(target) - target));
    }
  }

  lemma SecondIsLost(reading: Clock, clock: Clock, hit: int -> bool, target: int, first: int, u: int)
    requires Misreads(reading, clock, hit, target, first)
    requires u == target - (clock(target) - target) && clock(u) < first <= clock(target)
    ensures !hit(Iterate(reading, target, target, 4))
  {
    ReadAsShown(reading, clock, hit, target, first, target);
    OneCorrection(reading, target, target, u, 4);
    MisreadIsLost(reading, clock, hit, target, first, u, 3);
  }

  lemma ReadAsShown(reading: Clock, clock: Clock, hit: int -> bool, target: int, first: int, u: int)
    requires Misreads(reading, clock, hit, target, first) && clock(u) >= first
    ensures reading(u) == clock(u) && -DAY <= clock(u) - u <= DAY
  {
  }

  lemma LegibleEnds(reading: Clock, clock: Clock, hit: int -> bool, target: int, first: int, s: int, a: int, b: int)
    requires Misreads(reading, clock, hit, target, first) && OneTransition(clock, target, s, a, b)
    requires Legible(clock, target, first)
    ensures EndsWell(reading, clock, hit, target, first)
  {
    var u := target - (clock(target) - target);
    var v := target - (clock(u) - u);
    assert Near(target, target) && Near(target, u) && Near(target, v);
    TwoOffsets(clock, target, u, v, s, a, b);
    LegibleGuesses(reading, clock, target, first, u, v);
    if clock(u) != target {
      ThirdGuess(reading, clock, hit, target, first, u, v);
    }
  }

  lemma LegibleGuesses(reading: Clock, clock: Clock, target: int, first: int, u: int, v: int)
    requires reading(target) == clock(target) && reading(u) == clock(u)
    requires u == target - (clock(target) - target) && v == target - (clock(u) - u)
    ensures Iterate(reading, target, target, 4) == if clock(u) == target then u else Iterate(reading, target, v, 2)
  {
    OneIteration(reading, target, target, 4);
    OneIteration(reading, target, u, 3);
  }

  /** With one transition nearby, an instant that reads the target is the second or the third guess. */
  lemma TwoOffsets(clock: Clock, target: int, u: int, v: int, s: int, a: int, b: int)
    requires OneTransition(clock, target, s, a, b)
    requires u == target - (clock(target) - target) && v == target - (clock(u) - u)
    ensures Near(target, u) && Near(target, v)
    ensures Reads(clock, target) <==> clock(u) == target || clock(v) == target
    ensures clock(v) - v == clock(target) - target || clock(v) - v == clock(u) - u
  {
    assert Near(target, target) && Near(target, u) && Near(target, v);
  }

  lemma ThirdGuess(reading: Clock, clock: Clock, hit: int -> bool, target: int, first: int, u: int, v: int)
    requires Misreads(reading, clock, hit, target, first) && Near(target, v)
    requires u == target - (clock(target) - target) && v == target - (clock(u) - u)
    requires first <= clock(u) != target
    requires clock(v) - v == clock(target) - target || clock(v) - v == clock(u) - u
    ensures var guess := Iterate(reading, target, v, 2);
            if clock(v) == target then guess == v && hit(v) else !hit(guess)
  {
    if clock(v) < first {
      MisreadIsLost(reading, clock, hit, target, first, v, 2);
    } else {
      OneIteration(reading, target, v, 2);
      OneIteration(reading, target, u, 1);
    }
  }

  /** With one transition nearby, the search hits exactly when the clock reads the target somewhere and the first two readings are legible. */
  lemma SearchExactly(reading: Clock, clock: Clock, hit: int -> bool, target: int, first: int, s: int, a: int, b: int)
    requires Misreads(reading, clock, hit, target, first) && OneTransition(clock, target, s, a, b)
    ensures EndsWell(reading, clock, hit, target, first)
  {
    if Legible(clock, target, first) {
      LegibleEnds(reading, clock, hit, target, first, s, a, b);
    } else {
      IllegibleEnds(reading, clock, hit, target, first);
    }
  }

  ghost predicate ReadsTwice(clock: Clock, target: int) {
    exists u, v :: u != v && Near(target, u) && Near(target, v) && clock(u) == target && clock(v) == target
  }

  /** Some other instant, a whole number of quarter-hours and at most three hours away, satisfies `hit`. */
  ghost predicate HitNearby(hit: int -> bool, instant: int) {
    exists quarters: int :: -12 <= quarters <= 12 && quarters != 0 && hit(instant + 900 * quarters)
  }

  method Scan(hit: int -> bool, instant: int) returns (found: bool)
    ensures found <==> HitNearby(hit, instant)
  {
    var minutes := 15;
    ghost var k := 1;
    while minutes <= 180
      invariant minutes == 15 * k && 1 <= k <= 13
      invariant forall q: int :: -k < q < k && q != 0 ==> !hit(instant + 900 * q)
    {
      var direction := -1;
      while direction <= 1
        invariant direction == -1 || direction == 1 || direction == 3
        invariant direction >= 1 ==> !hit(instant + 900 * -k)
        invariant direction == 3 ==> !hit(instant + 900 * k)
      {
        ghost var q := direction * k;
        var candidate := instant + direction * minutes * 60;
        assert candidate == instant + 900 * q;
        if hit(candidate) {
          assert -12 <= q <= 12 && q != 0;
          return true;
        }
        direction := direction + 2;
      }
      minutes := minutes + 15;
      k := k + 1;
    }
    return false;
  }

  predicate Detectable(shift: int) { shift % 900 == 0 && -10800 <= shift <= 10800 }

  ghost predicate HitsAreReads(clock: Clock, target: int, hit: int -> bool, instant: int) {
    forall u :: instant - 10800 <= u <= instant + 10800 ==> hit(u) == (Near(target, u) && clock(u) == target)
  }

  lemma HitsAreDetectable(clock: Clock, target: int, s: int, a: int, b: int, hit: int -> bool, instant: int)
    requires OneTransition(clock, target, s, a, b) && HitsAreReads(clock, target, hit, instant)
    requires Near(target, instant) && clock(instant) == target && HitNearby(hit, instant)
    ensures ReadsTwice(clock, target) && Detectable(a - b)
  {
    var q: int :| -12 <= q <= 12 && q != 0 && hit(instant + 900 * q);
    var v := instant + 900 * q;
    assert Near(target, v) && clock(v) == target;
    Quarters(a - b, if v - instant == a - b then q else -q);
  }

  lemma Quarters(shift: int, q: int)
    requires shift == 900 * q && -12 <= q <= 12
    ensures Detectable(shift)
  {
  }

  lemma DetectablesAreHit(clock: Clock, target: int, s: int, a: int, b: int, hit: int -> bool, instant: int)
    requires OneTransition(clock, target, s, a, b) && HitsAreReads(clock, target, hit, instant)
    requires Near(target, instant) && clock(instant) == target && ReadsTwice(clock, target) && Detectable(a - b)
    ensures HitNearby(hit, instant)
  {
    var x, y :| x != y && Near(target, x) && Near(target, y) && clock(x) == target && clock(y) == target;
    var v := if x == instant then y else x;
    var q := if v - instant == a - b then (a - b) / 900 else -((a - b) / 900);
    assert a - b == 900 * ((a - b) / 900);
    assert v == instant + 900 * q;
  }

  /** Around an instant that reads the target, the scan hits exactly when there is another one and the transition is detectable. */
  lemma ScanExactly(clock: Clock, target: int, s: int, a: int, b: int, hit: int -> bool, instant: int)
    requires OneTransition(clock, target, s, a, b) && HitsAreReads(clock, target, hit, instant)
    requires Near(target, instant) && clock(instant) == target
    ensures HitNearby(hit, instant) <==> ReadsTwice(clock, target) && Detectable(a - b)
  {
    if HitNearby(hit, instant) {
      HitsAreDetectable(clock, target, s, a, b, hit, instant);
    }
    if ReadsTwice(clock, target) && Detectable(a - b) {
      DetectablesAreHit(clock, target, s, a, b, hit, instant);
    }
  }
}
