/** Where the phase lock spends its life: the correction near the target, and how a run gets there. */
module DcInBand {
  import opened DcLock

  // --- one correction ----------------------------------------------------------------------------

  function Min(a: int, b: int): int { if a < b then a else b }

  /** The nanoseconds taken off an error of e by n counts of accumulator on its side. */
  function Pull(e: int, n: nat): int { Min(MAX_CORRECTION, e / 100 + n / 20) }

  /** The accumulator takes one count of the error's sign, none at zero, and stops at its bounds. */
  lemma AccumulatorCounts(e: int, integral: int, limit: nat)
    ensures var next := Steered(e, integral, limit).0;
            && (integral > 20 * limit ==> next == 20 * limit) && (-integral > 20 * limit ==> -next == 20 * limit)
            && (-20 * limit <= integral <= 20 * limit ==>
                  && (e == 0 ==> next == integral)
                  && (e > 0 ==> next == Min(integral + 1, 20 * limit))
                  && (e < 0 ==> -next == Min(1 - integral, 20 * limit)))
  {
  }

  /** For any error, limit and accumulator: the correction opposes an error that the new accumulator sides
      with, by a hundredth of it and one nanosecond for every 20 counts, up to the limit; an accumulator on
      the other side takes its nanoseconds off that. */
  lemma SteeredOpposes(e: int, integral: int, limit: nat)
    ensures var (next, c) := Steered(e, integral, limit);
            && (0 <= e && 0 <= next ==> -c == Min(limit, e / 100 + next / 20))
            && (e <= 0 && next <= 0 ==> c == Min(limit, (-e) / 100 + (-next) / 20))
            && (0 <= e && next <= 0 && c != limit && -c != limit ==> c == (-next) / 20 - e / 100)
            && (e <= 0 && 0 <= next && c != limit && -c != limit ==> c == (-e) / 100 - next / 20)
  {
  }

  /** An error of 100 ns or more, with an accumulator that is not on the other side, is corrected in the opposite
      direction by at least its hundredth, up to the limit; the accumulator adds 1 ns for every 20 counts. */
  lemma ErrorIsPulledBack(dc: int, cycle: nat, integral: int, shift: int, limit: nat)
    requires dc != 0 && cycle > 0 && limit > 0
    ensures var e := PhaseError(dc, shift, cycle);
            var (next, c) := Corrected(dc, cycle, integral, shift, limit);
            && (e >= 100 && integral >= 0 ==>
                  0 < Min(limit, e / 100) <= -c <= limit && -c == Min(limit, e / 100 + next / 20))
            && (e <= -100 && integral <= 0 ==>
                  0 < Min(limit, (-e) / 100) <= c <= limit && c == Min(limit, (-e) / 100 + (-next) / 20))
  {
    SteeredOpposes(PhaseError(dc, shift, cycle), integral, limit);
  }

  // --- one cycle ---------------------------------------------------------------------------------

  /** The error and the accumulator are e and n, on one side of the target. */
  predicate OnSide(l: Lock, period: nat, shift: int, ahead: bool, e: int, n: nat)
    requires period > 0
  {
    ErrorOf(l, period, shift) == (if ahead then e else -e) && l.integral == (if ahead then n else 0 - n)
  }

  /** One cycle with a nonzero error, exactly: the error loses the pull, and so crosses the target exactly when
      the pull exceeds it. */
  lemma OneCycle(l: Lock, period: nat, shift: int, skipped: nat, ahead: bool, e: nat, n: nat)
    requires period > 2 * MAX_CORRECTION && l.dc != 0 && e > 0 && n < 20 * MAX_CORRECTION
    requires OnSide(l, period, shift, ahead, e, n)
    ensures OnSide(LockNext(l, period, shift, skipped), period, shift, ahead, e - Pull(e, n + 1), n + 1)
  {
    var (next, c) := Corrected(l.dc, period, l.integral, shift, MAX_CORRECTION);
    SteeredOpposes(ErrorOf(l, period, shift), l.integral, MAX_CORRECTION);
    assert next == (if ahead then n + 1 else -(n + 1)) && c == if ahead then -Pull(e, n + 1) else Pull(e, n + 1);
    var turns := PhaseErrorIsShortest(l.dc, shift, period);
    ErrorMoves(l.dc, shift, period, c, skipped);
  }

  // --- runs from a zero accumulator, as arithmetic -----------------------------------------------

  /** The error n cycles on, from e with k counts in the accumulator. */
  function Onward(e: int, k: nat, n: nat): int
    decreases n, k, e
  {
    if n == 0 then e else Onward(e - Pull(e, k + 1), k + 1, n - 1)
  }

  lemma {:induction false} OnwardAgain(e: int, k: nat, m: nat, n: nat)
    ensures Onward(e, k, m + n) == Onward(Onward(e, k, m), k + m, n)
    decreases m
  {
    if m > 0 {
      OnwardAgain(e - Pull(e, k + 1), k + 1, m - 1, n);
    }
  }

  lemma OnwardOneMore(e: int, k: nat, n: nat)
    ensures var f := Onward(e, k, n); Onward(e, k, n + 1) == f - Pull(f, k + n + 1)
  {
    OnwardAgain(e, k, n, 1);
    var f := Onward(e, k, n);
    assert Onward(f, k + n, 1) == f - Pull(f, k + n + 1);
  }

  /** A larger error stays the larger one, and neighbours stay neighbours. */
  lemma {:induction false} OnwardIsMonotone(e: int, f: int, k: nat, n: nat)
    requires e <= f
    ensures Onward(e, k, n) <= Onward(f, k, n)
    ensures f == e + 1 ==> Onward(f, k, n) <= Onward(e, k, n) + 1
    decreases n
  {
    if n > 0 {
      OnwardIsMonotone(e - Pull(e, k + 1), f - Pull(f, k + 1), k + 1, n - 1);
    }
  }

  /** So every value between two that are reached is reached. */
  lemma {:induction false} OnwardReaches(e: int, f: int, k: nat, n: nat, v: int) returns (g: int)
    requires e <= f && Onward(e, k, n) <= v <= Onward(f, k, n)
    ensures e <= g <= f && Onward(g, k, n) == v
    decreases f - e
  {
    if Onward(e, k, n) == v {
      return e;
    }
    assert e != f;
    OnwardIsMonotone(e, e + 1, k, n);
    g := OnwardReaches(e + 1, f, k, n, v);
  }

  /** Below 100 is for good. */
  lemma {:induction false} StaysBelow(e: int, k: nat, n: nat)
    requires e < 100
    ensures Onward(e, k, n) < 100
    decreases n
  {
    if n > 0 {
      StaysBelow(e - Pull(e, k + 1), k + 1, n - 1);
    }
  }

  /** While the correction is clamped: 50 us a cycle. */
  lemma {:induction false} ClampedPhase(e: int, n: nat)
    requires n > 0 ==> e - MAX_CORRECTION * (n - 1) >= 5_000_000
    ensures Onward(e, 0, n) == e - MAX_CORRECTION * n
  {
    if n > 0 {
      ClampedPhase(e, n - 1);
      OnwardOneMore(e, 0, n - 1);
    }
  }

  // --- then it decays by a hundredth a cycle -----------------------------------------------------

  function Positive(x: int): nat { if x < 0 then 0 else x }

  /** Moved by 100 times the accumulator's i, an error decays by a hundredth a cycle. */
  function Moved(e: int, i: int): int { e + 100 * i }

  lemma FiveOf99(u: int, a: int, b: int, c: int, d: int, v: int)
    ensures (100 * a <= 99 * u && 100 * b <= 99 * a && 100 * c <= 99 * b && 100 * d <= 99 * c && 100 * v <= 99 * d)
            ==> 10_000 * v <= 9510 * Positive(u)
    ensures (100 * a >= 99 * u && 100 * b >= 99 * a && 100 * c >= 99 * b && 100 * d >= 99 * c && 100 * v >= 99 * d)
            ==> u < 0 || 10_000 * v >= 9509 * u
  {
  }

  lemma FallsOnce(e: int, k: nat, n: nat, i: nat)
    requires Onward(e, k, n) < 4_990_000 && (k + n + 1) / 20 > i && k + n + 1 <= 2000
    ensures 100 * Moved(Onward(e, k, n + 1), i) <= 99 * Moved(Onward(e, k, n), i) && Onward(e, k, n + 1) < 4_990_000
  {
    OnwardOneMore(e, k, n);
  }

  /** Not clamped and with i + 1 ns or more of accumulator, at most so much is left after 5 cycles, ... */
  lemma FallsFive(e: int, k: nat, i: nat)
    requires e < 4_990_000 && (k + 1) / 20 > i && k + 5 <= 2000
    ensures var f := Onward(e, k, 5); 10_000 * Moved(f, i) <= 9510 * Positive(Moved(e, i)) && f < 4_990_000
  {
    assert Onward(e, k, 0) == e;
    FallsOnce(e, k, 0, i);
    FallsOnce(e, k, 1, i);
    FallsOnce(e, k, 2, i);
    FallsOnce(e, k, 3, i);
    FallsOnce(e, k, 4, i);
    FiveOf99(Moved(e, i), Moved(Onward(e, k, 1), i), Moved(Onward(e, k, 2), i), Moved(Onward(e, k, 3), i),
             Moved(Onward(e, k, 4), i), Moved(Onward(e, k, 5), i));
  }

  lemma FallsTen(e: int, k: nat, i: nat)
    requires e < 4_990_000 && (k + 1) / 20 > i && k + 10 <= 2000
    ensures var f := Onward(e, k, 10); 10_000 * Moved(f, i) <= 9045 * Positive(Moved(e, i)) && f < 4_990_000
  {
    FallsFive(e, k, i);
    OnwardAgain(e, k, 5, 5);
    FallsFive(Onward(e, k, 5), k + 5, i);
  }

  lemma FiveOf90(u: int, a: int, b: int, c: int, d: int, v: int)
    ensures (10_000 * a <= 9045 * Positive(u) && 10_000 * b <= 9045 * Positive(a) && 10_000 * c <= 9045 * Positive(b)
             && 10_000 * d <= 9045 * Positive(c) && 10_000 * v <= 9045 * Positive(d))
            ==> 10_000 * v <= 6056 * Positive(u)
    ensures (10_000 * a >= 9042 * u && 10_000 * b >= 9042 * a && 10_000 * c >= 9042 * b && 10_000 * d >= 9042 * c
             && 10_000 * v >= 9042 * d)
            ==> u < 0 || 10_000 * v >= 6043 * u
  {
  }

  /** The errors 10, 20, 30, 40 and 50 cycles on. */
  lemma TenByTen(e: int, k: nat) returns (a: int, b: int, c: int, d: int)
    ensures a == Onward(e, k, 10) && b == Onward(a, k + 10, 10) && c == Onward(b, k + 20, 10)
    ensures d == Onward(c, k + 30, 10) && Onward(e, k, 50) == Onward(d, k + 40, 10)
  {
    a := Onward(e, k, 10);
    b := Onward(a, k + 10, 10);
    c := Onward(b, k + 20, 10);
    d := Onward(c, k + 30, 10);
    OnwardAgain(e, k, 10, 10);
    OnwardAgain(e, k, 20, 10);
    OnwardAgain(e, k, 30, 10);
    OnwardAgain(e, k, 40, 10);
  }

  lemma FallsFifty(e: int, k: nat, i: nat)
    requires e < 4_990_000 && (k + 1) / 20 > i && k + 50 <= 2000
    ensures var f := Onward(e, k, 50); 10_000 * Moved(f, i) <= 6056 * Positive(Moved(e, i)) && f < 4_990_000
  {
    var a, b, c, d := TenByTen(e, k);
    FallsTen(e, k, i);
    FallsTen(a, k + 10, i);
    FallsTen(b, k + 20, i);
    FallsTen(c, k + 30, i);
    FallsTen(d, k + 40, i);
    FiveOf90(Moved(e, i), Moved(a, i), Moved(b, i), Moved(c, i), Moved(d, i), Moved(Onward(e, k, 50), i));
  }

  /** ... and a hundred cycles on, from at most e, no more than f. */
  lemma FallsTo(start: int, k: nat, e: int, i: nat, f: int)
    requires Onward(start, 0, k) <= e && 0 <= e < 4_990_000 && (k + 1) / 20 > i && k + 100 <= 2000
    requires 3668 * Moved(e, i) <= 10_000 * Moved(f, i)
    ensures Onward(start, 0, k + 100) <= f
  {
    FallsFifty(e, k, i);
    FallsFifty(Onward(e, k, 50), k + 50, i);
    OnwardAgain(e, k, 50, 50);
    OnwardAgain(start, 0, k, 100);
    OnwardIsMonotone(Onward(start, 0, k), e, k, 100);
  }

  lemma LastsOnce(e: int, k: nat, n: nat, i: nat)
    requires (k + n + 1) / 20 <= i
    ensures 100 * Moved(Onward(e, k, n + 1), i) >= 99 * Moved(Onward(e, k, n), i)
  {
    OnwardOneMore(e, k, n);
  }

  /** With i ns of accumulator or less, at least so much is left after 5 cycles, ... */
  lemma LastsFive(e: int, k: nat, i: nat)
    requires Moved(e, i) >= 0 && (k + 5) / 20 <= i
    ensures 10_000 * Moved(Onward(e, k, 5), i) >= 9509 * Moved(e, i)
  {
    assert Onward(e, k, 0) == e;
    LastsOnce(e, k, 0, i);
    LastsOnce(e, k, 1, i);
    LastsOnce(e, k, 2, i);
    LastsOnce(e, k, 3, i);
    LastsOnce(e, k, 4, i);
    FiveOf99(Moved(e, i), Moved(Onward(e, k, 1), i), Moved(Onward(e, k, 2), i), Moved(Onward(e, k, 3), i),
             Moved(Onward(e, k, 4), i), Moved(Onward(e, k, 5), i));
  }

  lemma LastsTen(e: int, k: nat, i: nat)
    requires Moved(e, i) >= 0 && (k + 10) / 20 <= i
    ensures 10_000 * Moved(Onward(e, k, 10), i) >= 9042 * Moved(e, i)
  {
    LastsFive(e, k, i);
    OnwardAgain(e, k, 5, 5);
    LastsFive(Onward(e, k, 5), k + 5, i);
  }

  lemma LastsFifty(e: int, k: nat, i: nat)
    requires Moved(e, i) >= 0 && (k + 50) / 20 <= i
    ensures 10_000 * Moved(Onward(e, k, 50), i) >= 6043 * Moved(e, i)
  {
    var a, b, c, d := TenByTen(e, k);
    LastsTen(e, k, i);
    LastsTen(a, k + 10, i);
    LastsTen(b, k + 20, i);
    LastsTen(c, k + 30, i);
    LastsTen(d, k + 40, i);
    FiveOf90(Moved(e, i), Moved(a, i), Moved(b, i), Moved(c, i), Moved(d, i), Moved(Onward(e, k, 50), i));
  }

  /** ... and a hundred cycles on, from at least e, no less than f. */
  lemma StaysAbove(start: int, k: nat, e: int, f: int)
    requires Onward(start, 0, k) >= e >= 0 && k + 100 <= 1999 && 3651 * Moved(e, 99) >= 10_000 * Moved(f, 99)
    ensures Onward(start, 0, k + 100) >= f
  {
    LastsFifty(e, k, 99);
    LastsFifty(Onward(e, k, 50), k + 50, 99);
    OnwardAgain(e, k, 50, 50);
    OnwardAgain(start, 0, k, 100);
    OnwardIsMonotone(e, Onward(start, 0, k), k, 100);
  }

  // --- the widest start at 7 Hz and the widest at 6 Hz -------------------------------------------

  const WIDEST_AT_7 := 71_428_571
  const WIDEST_AT_6 := 83_333_333

  lemma WideAt7Ends(e: int)
    requires 71_400_000 <= e <= WIDEST_AT_7
    ensures Onward(e, 0, 1979) < 0
  {
    ClampedPhase(e, 1329);
    FallsTo(e, 1329, 4_978_571, 65, 1_823_000);
    FallsTo(e, 1429, 1_823_000, 70, 665_000);
    FallsTo(e, 1529, 665_000, 75, 240_000);
    FallsTo(e, 1629, 240_000, 80, 84_000);
    FallsTo(e, 1729, 84_000, 85, 26_000);
    FallsTo(e, 1829, 26_000, 90, 4_000);
    LastFall(e);
  }

  lemma LastFall(start: int)
    requires Onward(start, 0, 1929) <= 4_000
    ensures Onward(start, 0, 1979) < 0
  {
    OnwardAgain(start, 0, 1929, 50);
    FallsFifty(Onward(start, 0, 1929), 1929, 95);
  }

  lemma WideAt6Lasts(e: int)
    requires 83_300_000 <= e <= WIDEST_AT_6
    ensures Onward(e, 0, 1999) >= 100
  {
    ClampedPhase(e, 1499);
    StaysAbove(e, 1499, 8_350_000, 3_000_000);
    StaysAbove(e, 1599, 3_000_000, 1_080_000);
    StaysAbove(e, 1699, 1_080_000, 380_000);
    StaysAbove(e, 1799, 380_000, 130_000);
    StaysAbove(e, 1899, 130_000, 40_000);
  }

  // --- the lock's runs ---------------------------------------------------------------------------

  /** A run from a zero accumulator, with a clock throughout. */
  predicate LocksOn(ls: seq<Lock>, period: nat, shift: int, skips: seq<nat>) {
    && period > 2 * MAX_CORRECTION && IsLockRun(ls, period, shift, skips)
    && ls[0].integral == 0 && forall k :: 0 <= k < |ls| ==> ls[k].dc != 0
  }

  /** The first n errors are 100 ns or more. */
  predicate FarFor(ls: seq<Lock>, period: nat, shift: int, n: nat)
    requires period > 0 && n <= |ls|
  {
    forall k :: 0 <= k < n ==> Abs(ErrorOf(ls[k], period, shift)) >= 100
  }

  lemma {:induction false} RunIsOnward(ls: seq<Lock>, period: nat, shift: int, skips: seq<nat>, ahead: bool, e: nat,
                                       n: nat)
    requires LocksOn(ls, period, shift, skips) && OnSide(ls[0], period, shift, ahead, e, 0)
    requires n < |ls| && n <= 2000 && forall k :: 0 <= k < n ==> Onward(e, 0, k) > 0
    ensures OnSide(ls[n], period, shift, ahead, Onward(e, 0, n), n)
  {
    if n > 0 {
      RunIsOnward(ls, period, shift, skips, ahead, e, n - 1);
      OneCycle(ls[n - 1], period, shift, skips[n - 1], ahead, Onward(e, 0, n - 1), n - 1);
      OnwardOneMore(e, 0, n - 1);
    }
  }

  /** While the error is 100 ns or more, every cycle brings it closer and none takes it across. */
  predicate ClosesIn(ls: seq<Lock>, period: nat, shift: int)
    requires period > 0
  {
    forall n :: 0 < n < |ls| && FarFor(ls, period, shift, n) ==>
      var e, f := ErrorOf(ls[n - 1], period, shift), ErrorOf(ls[n], period, shift);
      if e > 0 then 0 <= f < e else e < f <= 0
  }

  /** n cycles that began from e, none of them below 100 ns, can only be so many. */
  lemma {:induction false} FarIsOnward(ls: seq<Lock>, period: nat, shift: int, skips: seq<nat>, ahead: bool, e: nat,
                                       n: nat)
    requires LocksOn(ls, period, shift, skips) && OnSide(ls[0], period, shift, ahead, e, 0) && e <= WIDEST_AT_7
    requires n < |ls| && FarFor(ls, period, shift, n)
    ensures n <= 1979 && OnSide(ls[n], period, shift, ahead, Onward(e, 0, n), n)
    ensures Onward(e, 0, n) >= 0
    ensures n > 0 ==> OnSide(ls[n - 1], period, shift, ahead, Onward(e, 0, n - 1), n - 1)
                      && Onward(e, 0, n - 1) >= 100 && Onward(e, 0, n) < Onward(e, 0, n - 1)
  {
    if n > 0 {
      FarIsOnward(ls, period, shift, skips, ahead, e, n - 1);
      assert Abs(ErrorOf(ls[n - 1], period, shift)) >= 100;
      FarCycle(ls[n - 1], period, shift, skips[n - 1], ahead, Onward(e, 0, n - 1), n - 1);
      FarEnds(e, n - 1);
      OnwardOneMore(e, 0, n - 1);
      FarPulls(Onward(e, 0, n - 1), n);
    }
  }

  lemma FarCycle(l: Lock, period: nat, shift: int, skipped: nat, ahead: bool, f: nat, m: nat)
    requires period > 2 * MAX_CORRECTION && l.dc != 0 && m <= 1979 && OnSide(l, period, shift, ahead, f, m)
    requires Abs(ErrorOf(l, period, shift)) >= 100
    ensures f >= 100
    ensures OnSide(LockNext(l, period, shift, skipped), period, shift, ahead, f - Pull(f, m + 1), m + 1)
  {
    OneCycle(l, period, shift, skipped, ahead, f, m);
  }

  lemma FarPulls(f: int, m: nat)
    requires f >= 100 && m <= 1979
    ensures 0 <= f - Pull(f, m) < f
  {
  }

  lemma FarEnds(e: int, n: nat)
    requires e <= WIDEST_AT_7 && Onward(e, 0, n) >= 100
    ensures n != 1979
  {
    if n == 1979 {
      var wide: int :| 71_400_000 <= wide <= WIDEST_AT_7 && e <= wide;
      WideAt7Ends(wide);
      OnwardIsMonotone(e, wide, 0, n);
    }
  }

  lemma FarStep(ls: seq<Lock>, period: nat, shift: int, skips: seq<nat>, n: nat)
    requires LocksOn(ls, period, shift, skips) && period <= 1_000_000_000 / 7
    requires 0 < n < |ls| && FarFor(ls, period, shift, n)
    ensures n <= 1979
    ensures var e, f := ErrorOf(ls[n - 1], period, shift), ErrorOf(ls[n], period, shift);
            if e > 0 then 0 <= f < e else e < f <= 0
  {
    var e, ahead := Abs(ErrorOf(ls[0], period, shift)), ErrorOf(ls[0], period, shift) >= 0;
    var turns := PhaseErrorIsShortest(ls[0].dc, shift, period);
    FarIsOnward(ls, period, shift, skips, ahead, e, n);
  }

  /** With a period of up to a seventh of a second, from any clock, shift and number of skipped periods: the error
      closes in until it is below 100 ns, and it is within 1979 cycles. */
  lemma FastLoopClosesIn(ls: seq<Lock>, period: nat, shift: int, skips: seq<nat>)
    requires LocksOn(ls, period, shift, skips) && period <= 1_000_000_000 / 7
    ensures ClosesIn(ls, period, shift)
    ensures |ls| > 1980 ==> exists k :: 0 <= k < 1980 && Abs(ErrorOf(ls[k], period, shift)) < 100
  {
    forall n | 0 < n < |ls| && FarFor(ls, period, shift, n)
      ensures var x, y := ErrorOf(ls[n - 1], period, shift), ErrorOf(ls[n], period, shift);
              if x > 0 then 0 <= y < x else x < y <= 0
    {
      FarStep(ls, period, shift, skips, n);
    }
    if |ls| > 1980 && FarFor(ls, period, shift, 1980) {
      FarStep(ls, period, shift, skips, 1980);
    }
  }

  // --- slow loops --------------------------------------------------------------------------------

  function Readings(l: Lock, period: nat, n: nat): (ls: seq<Lock>)
    ensures |ls| == n + 1 && ls[0] == l && IsLockRun(ls, period, 0, seq(n, _ => 0))
    ensures l.dc > 0 && period > MAX_CORRECTION ==> forall k :: 0 <= k <= n ==> ls[k].dc > 0
    decreases n, period
  {
    if n == 0 then [l]
    else
      var ls := Readings(l, period, n - 1);
      ls + [LockNext(ls[n - 1], period, 0, 0)]
  }

  lemma StillFar(e: int, n: nat, k: nat)
    requires Onward(e, 0, n) >= 100 && k <= n
    ensures Onward(e, 0, k) >= 100
  {
    OnwardAgain(e, 0, k, n - k);
    if Onward(e, 0, k) < 100 {
      StaysBelow(Onward(e, 0, k), k, n - k);
    }
  }

  lemma HundredIsReached() returns (e: int)
    ensures e <= WIDEST_AT_6 && Onward(e, 0, 1999) == 100
  {
    var low: int :| 0 <= low < 100;
    var high: int :| 83_300_000 <= high <= WIDEST_AT_6;
    WideAt6Lasts(high);
    StaysBelow(low, 0, 1999);
    e := OnwardReaches(low, high, 0, 1999, 100);
  }

  /** From this error a run is still at 100 ns after 1999 cycles, and is thrown across by the next. */
  lemma SlowStart() returns (e: int)
    ensures 100 <= e <= WIDEST_AT_6 && Onward(e, 0, 1999) == 100 && Onward(e, 0, 2000) == -1
    ensures forall k :: 0 <= k <= 1999 ==> Onward(e, 0, k) >= 100
  {
    e := HundredIsReached();
    forall k | 0 <= k <= 1999 ensures Onward(e, 0, k) >= 100 {
      StillFar(e, 1999, k);
    }
    StillFar(e, 1999, 0);
    OnwardOneMore(e, 0, 1999);
  }

  lemma SlowRun(e: nat, period: nat, skips: seq<nat>)
    requires 0 < e <= WIDEST_AT_6 && 2 * WIDEST_AT_6 <= period && skips == seq(2000, _ => 0)
    ensures var ls := Readings(Lock(e, 0), period, 2000);
            |ls| == 2001 && LocksOn(ls, period, 0, skips) && OnSide(ls[0], period, 0, true, e, 0)
  {
    StartsAt(e, period);
  }

  /** At 6 Hz or less some run does not close in: an error of 100 ns is thrown across to -1 ns. */
  lemma SlowLoopCrosses(period: nat) returns (ls: seq<Lock>, skips: seq<nat>)
    requires period >= 2 * WIDEST_AT_6
    ensures LocksOn(ls, period, 0, skips) && !ClosesIn(ls, period, 0)
  {
    var e := SlowStart();
    skips := seq(2000, _ => 0);
    ls := Readings(Lock(e, 0), period, 2000);
    SlowRun(e, period, skips);
    SlowRunCrosses(ls, period, skips, e, 2000);
  }

  lemma SlowRunCrosses(ls: seq<Lock>, period: nat, skips: seq<nat>, e: nat, m: nat)
    requires LocksOn(ls, period, 0, skips) && OnSide(ls[0], period, 0, true, e, 0) && 0 < m < |ls| && m <= 2000
    requires forall k :: 0 <= k < m ==> Onward(e, 0, k) >= 100
    requires Onward(e, 0, m - 1) == 100 && Onward(e, 0, m) == -1
    ensures !ClosesIn(ls, period, 0)
  {
    FarThroughout(ls, period, skips, e, m);
    RunIsOnward(ls, period, 0, skips, true, e, m - 1);
    RunIsOnward(ls, period, 0, skips, true, e, m);
    CrossesAt(ls, period, m);
  }

  lemma FarThroughout(ls: seq<Lock>, period: nat, skips: seq<nat>, e: nat, m: nat)
    requires LocksOn(ls, period, 0, skips) && OnSide(ls[0], period, 0, true, e, 0) && m < |ls| && m <= 2000
    requires forall k :: 0 <= k < m ==> Onward(e, 0, k) >= 100
    ensures FarFor(ls, period, 0, m)
  {
    forall n | 0 <= n < m ensures Abs(ErrorOf(ls[n], period, 0)) >= 100 {
      RunIsOnward(ls, period, 0, skips, true, e, n);
    }
  }

  lemma CrossesAt(ls: seq<Lock>, period: nat, n: nat)
    requires period > 0 && 0 < n < |ls| && FarFor(ls, period, 0, n)
    requires OnSide(ls[n - 1], period, 0, true, 100, n - 1) && OnSide(ls[n], period, 0, true, -1, n)
    ensures !ClosesIn(ls, period, 0)
  {
  }

  lemma StartsAt(e: nat, period: nat)
    requires 0 < 2 * e <= period
    ensures OnSide(Lock(e, 0), period, 0, true, e, 0)
  {
    var turns := PhaseErrorIsShortest(e, 0, period);
    ShortestIsUnique(e, period, 0, e, turns, PhaseError(e, 0, period));
  }

  /** At a configured rate, the lock closes in from every clock, shift and pattern of skipped periods exactly when
      the rate is 7 Hz or more. */
  lemma ClosesInExactlyFrom7Hz(rate: nat)
    requires 1 <= rate <= 1000
    ensures rate >= 7 <==>
              forall ls, shift, skips :: LocksOn(ls, 1_000_000_000 / rate, shift, skips) ==>
                ClosesIn(ls, 1_000_000_000 / rate, shift)
  {
    var period := 1_000_000_000 / rate;
    if rate >= 7 {
      forall ls, shift, skips | LocksOn(ls, period, shift, skips) ensures ClosesIn(ls, period, shift) {
        FastLoopClosesIn(ls, period, shift, skips);
      }
    } else {
      var ls, skips := SlowLoopCrosses(period);
    }
  }
}
