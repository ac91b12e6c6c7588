/** The distributed-clock phase lock and the pacer around it. */
module DcLock {
  import opened Arith

  /** Correction clamp of the pacer, in nanoseconds. */
  const MAX_CORRECTION := 50_000

  // --- the machine's truncating division ---------------------------------------------------------

  function TruncDiv(a: int, b: nat): int
    requires b > 0
  {
    if a >= 0 then a / b else -((-a) / b)
  }

  function TruncMod(a: int, b: nat): int
    requires b > 0
  {
    if a >= 0 then a % b else -((-a) % b)
  }

  lemma TruncIdentity(a: int, b: nat)
    requires b > 0
    ensures a == TruncDiv(a, b) * b + TruncMod(a, b) && 0 - b < TruncMod(a, b) < b
  {
    Euclid(a, b);
    Euclid(-a, b);
    var q := (-a) / b;
    assert (-q) * b == -(q * b);
  }

  // --- the correction ----------------------------------------------------------------------------

  /** The phase, normalized to [0, cycle) and then wrapped to the shortest signed distance. */
  function PhaseError(dc: int, shift: int, cycle: nat): int
    requires cycle > 0
  {
    var phase := TruncMod(TruncMod(dc - shift, cycle) + cycle, cycle);
    if phase > cycle / 2 then phase - cycle else phase
  }

  function Clamp(x: int, limit: nat): int { if x > limit then limit else if x < 0 - limit then 0 - limit else x }

  /** The accumulator after one step: one count towards the error's sign, bounded. */
  function Accumulate(integral: int, error: int, limit: nat): int {
    Clamp(if error > 0 then integral + 1 else if error < 0 then integral - 1 else integral, limit)
  }

  function Gain(error: int, integral: int, limit: nat): int {
    Clamp(-TruncDiv(error, 100) - TruncDiv(integral, 20), limit)
  }

  /** New accumulator and correction. */
  function Corrected(dc: int, cycle: nat, integral: int, shift: int, limit: nat): (int, int) {
    if dc == 0 || cycle == 0 then (integral, 0) else Steered(PhaseError(dc, shift, cycle), integral, limit)
  }

  function Steered(error: int, integral: int, limit: nat): (r: (int, int))
    ensures -20 * limit <= r.0 <= 20 * limit && 0 - limit <= r.1 <= limit
  {
    var next := Accumulate(integral, error, limit * 20);
    (next, Gain(error, next, limit))
  }

  method WrapPhase(dc: int, shift: int, cycle: nat) returns (delta: int)
    requires cycle > 0
    ensures delta == PhaseError(dc, shift, cycle)
  {
    delta := TruncMod(TruncMod(dc - shift, cycle) + cycle, cycle);
    if delta > cycle / 2 {
      delta := delta - cycle;
    }
  }

  method Steer(delta: int, integral: int, limit: nat) returns (next: int, corr: int)
    ensures (next, corr) == Steered(delta, integral, limit)
  {
    next := integral;
    if delta > 0 {
      next := next + 1;
    } else if delta < 0 {
      next := next - 1;
    }
    var bound := limit * 20;
    if next > bound {
      next := bound;
    } else if next < -bound {
      next := -bound;
    }
    corr := -TruncDiv(delta, 100) - TruncDiv(next, 20);
    if corr > limit {
      corr := limit;
    } else if corr < 0 - limit {
      corr := 0 - limit;
    }
  }

  method PhaseCorrection(dc: int, cycle: nat, integral: int, shift: int, limit: nat) returns (next: int, corr: int)
    ensures (next, corr) == Corrected(dc, cycle, integral, shift, limit)
    ensures 0 - limit <= corr <= limit
    ensures dc != 0 && cycle != 0 ==> -20 * limit <= next <= 20 * limit
    ensures dc == 0 ==> next == integral && corr == 0
  {
    if dc == 0 || cycle == 0 {
      return integral, 0;
    }
    var delta := WrapPhase(dc, shift, cycle);
    next, corr := Steer(delta, integral, limit);
  }

  // --- what the wrapped error is -----------------------------------------------------------------

  /** `e` is the signed distance of x from a multiple of the cycle, the shortest one. */
  predicate Shortest(x: int, cycle: nat, turns: int, e: int) { x == turns * cycle + e && 0 - cycle < 2 * e <= cycle }

  lemma TurnsDistribute(j: int, k: int, cycle: nat)
    ensures (j + k) * cycle == j * cycle + k * cycle && (j - k) * cycle == j * cycle - k * cycle
  {
  }

  lemma ShortestIsUnique(x: int, cycle: nat, j: int, e: int, k: int, f: int)
    requires cycle > 0 && Shortest(x, cycle, j, e) && Shortest(x, cycle, k, f)
    ensures e == f
  {
    TurnsDistribute(j, k, cycle);
    if j - k > 0 {
      AtLeastOnce(j - k, cycle);
    } else if j - k < 0 {
      AtLeastOnce(k - j, cycle);
      TurnsDistribute(k, j, cycle);
    }
  }

  /** The code's normalize-and-wrap finds it, for every clock and shift, negative ones too. */
  lemma PhaseErrorIsShortest(dc: int, shift: int, cycle: nat) returns (turns: int)
    requires cycle > 0
    ensures Shortest(dc - shift, cycle, turns, PhaseError(dc, shift, cycle))
  {
    var x := dc - shift;
    var m := TruncMod(x, cycle);
    TruncIdentity(x, cycle);
    Euclid(m + cycle, cycle);
    var q, p := TruncDiv(x, cycle), (m + cycle) / cycle;
    var phase := (m + cycle) % cycle;
    TurnsDistribute(q, p, cycle);
    TurnsDistribute(q + p, 1, cycle);
    assert x == (q + p - 1) * cycle + phase;
    turns := if phase > cycle / 2 then q + p else q + p - 1;
  }

  // --- the closed loop ---------------------------------------------------------------------------

  /** Clock reading and accumulator at one cycle. */
  datatype Lock = Lock(dc: int, integral: int)

  /** The next reading: the clock moved by the commanded period and correction, and by whole skipped periods. */
  function LockNext(l: Lock, period: nat, shift: int, skipped: nat): Lock {
    var (integral, corr) := Corrected(l.dc, period, l.integral, shift, MAX_CORRECTION);
    Lock(l.dc + period + corr + skipped * period, integral)
  }

  function ErrorOf(l: Lock, period: nat, shift: int): int
    requires period > 0
  {
    PhaseError(l.dc, shift, period)
  }

  /** The accumulator never pushes against the error. */
  predicate Aligned(l: Lock, period: nat, shift: int)
    requires period > 0
  {
    var e := ErrorOf(l, period, shift);
    && -20 * MAX_CORRECTION <= l.integral <= 20 * MAX_CORRECTION
    && (e > 0 ==> l.integral >= 0) && (e < 0 ==> l.integral <= 0)
  }

  predicate OutOfBand(e: int) { e > MAX_CORRECTION || e < -MAX_CORRECTION }

  /** The step the loop takes from error e: at least 500 ns towards zero, never past it. */
  lemma GainPulls(e: int, integral: int)
    requires OutOfBand(e) && (e > 0 ==> integral >= 0) && (e < 0 ==> integral <= 0)
    ensures var next := Accumulate(integral, e, 20 * MAX_CORRECTION);
            var c := Gain(e, next, MAX_CORRECTION);
            && (e > 0 ==> next >= 0 && -MAX_CORRECTION <= c <= -500)
            && (e < 0 ==> next <= 0 && 500 <= c <= MAX_CORRECTION)
  {
  }

  /** A clock moved by c and whole periods has the error moved by c, while that stays the shortest. */
  lemma ErrorMoves(dc: int, shift: int, period: nat, c: int, skipped: nat)
    requires period > 0 && 0 - period < 2 * (PhaseError(dc, shift, period) + c) <= period
    ensures PhaseError(dc + period + c + skipped * period, shift, period) == PhaseError(dc, shift, period) + c
  {
    var e := PhaseError(dc, shift, period);
    var k := PhaseErrorIsShortest(dc, shift, period);
    var dc2 := dc + period + c + skipped * period;
    var j := PhaseErrorIsShortest(dc2, shift, period);
    TurnsDistribute(k, 1 + skipped, period);
    TurnsDistribute(1, skipped, period);
    ShortestIsUnique(dc2 - shift, period, k + 1 + skipped, e + c, j, PhaseError(dc2, shift, period));
  }

  /** One cycle outside the band: the error shrinks by 500 ns or more and keeps its sign. */
  lemma OneCycleCloser(l: Lock, period: nat, shift: int, skipped: nat)
    requires period > MAX_CORRECTION && l.dc != 0 && Aligned(l, period, shift)
    requires OutOfBand(ErrorOf(l, period, shift))
    ensures var e := ErrorOf(l, period, shift);
            var r := LockNext(l, period, shift, skipped);
            var f := ErrorOf(r, period, shift);
            && (e > 0 ==> 0 < f <= e - 500)
            && (e < 0 ==> e + 500 <= f < 0)
            && Aligned(r, period, shift)
  {
    var e := ErrorOf(l, period, shift);
    GainPulls(e, l.integral);
    var (_, c) := Corrected(l.dc, period, l.integral, shift, MAX_CORRECTION);
    var k := PhaseErrorIsShortest(l.dc, shift, period);
    ErrorMoves(l.dc, shift, period, c, skipped);
  }

  /** `ls` are the loop's readings, with any number of whole periods skipped at each cycle. */
  predicate IsLockRun(ls: seq<Lock>, period: nat, shift: int, skips: seq<nat>) {
    |ls| == |skips| + 1 && forall k :: 0 <= k < |skips| ==> ls[k + 1] == LockNext(ls[k], period, shift, skips[k])
  }

  function Abs(x: int): nat { if x < 0 then -x else x }

  /** While no reading was in the band, the error is on its first side and has lost 500 ns a cycle. */
  lemma {:induction false} ErrorShrinks(ls: seq<Lock>, period: nat, shift: int, skips: seq<nat>, n: nat)
    requires period > MAX_CORRECTION && IsLockRun(ls, period, shift, skips) && n < |ls|
    requires ls[0].integral == 0 && forall k :: 0 <= k < |ls| ==> ls[k].dc != 0
    requires forall k :: 0 <= k < n ==> OutOfBand(ErrorOf(ls[k], period, shift))
    ensures Aligned(ls[n], period, shift)
    ensures Abs(ErrorOf(ls[n], period, shift)) + 500 * n <= Abs(ErrorOf(ls[0], period, shift)) <= period / 2
    ensures ErrorOf(ls[0], period, shift) > 0 && n > 0 ==> ErrorOf(ls[n], period, shift) > 0
    ensures ErrorOf(ls[0], period, shift) < 0 && n > 0 ==> ErrorOf(ls[n], period, shift) < 0
  {
    var turns := PhaseErrorIsShortest(ls[0].dc, shift, period);
    if n > 0 {
      ErrorShrinks(ls, period, shift, skips, n - 1);
      OneCycleCloser(ls[n - 1], period, shift, skips[n - 1]);
    }
  }

  /** Convergence: from zero accumulator, a nonzero clock that follows the commanded deadlines is within
      50 us of the target phase after at most (cycle/2)/500 cycles. */
  lemma BandIsEntered(ls: seq<Lock>, period: nat, shift: int, skips: seq<nat>)
    requires period > MAX_CORRECTION && IsLockRun(ls, period, shift, skips) && |skips| >= (period / 2) / 500
    requires ls[0].integral == 0 && forall k :: 0 <= k < |ls| ==> ls[k].dc != 0
    ensures exists k :: 0 <= k <= (period / 2) / 500 && k < |ls| && !OutOfBand(ErrorOf(ls[k], period, shift))
  {
    var n := (period / 2) / 500;
    if forall k :: 0 <= k < n ==> OutOfBand(ErrorOf(ls[k], period, shift)) {
      ErrorShrinks(ls, period, shift, skips, n);
      assert !OutOfBand(ErrorOf(ls[n], period, shift));
    }
  }

  /** The bounds hold on every run, whatever the clock does. */
  lemma {:induction false} BoundsAlwaysHold(dcs: seq<int>, period: nat, shift: int, limit: nat, integral: int)
    requires -20 * limit <= integral <= 20 * limit
    ensures var l := Accumulated(dcs, period, shift, limit, integral); -20 * limit <= l <= 20 * limit
    ensures dcs != [] ==> 0 - limit <= LastCorrection(dcs, period, shift, limit, integral) <= limit
  {
    if dcs != [] {
      BoundsAlwaysHold(dcs[..|dcs| - 1], period, shift, limit, integral);
    }
  }

  /** The accumulator after a sequence of arbitrary clock readings. */
  function Accumulated(dcs: seq<int>, period: nat, shift: int, limit: nat, integral: int): int {
    if dcs == [] then integral
    else
      var before := Accumulated(dcs[..|dcs| - 1], period, shift, limit, integral);
      Corrected(dcs[|dcs| - 1], period, before, shift, limit).0
  }

  function LastCorrection(dcs: seq<int>, period: nat, shift: int, limit: nat, integral: int): int
    requires dcs != []
  {
    Corrected(dcs[|dcs| - 1], period, Accumulated(dcs[..|dcs| - 1], period, shift, limit, integral), shift, limit).1
  }

  // --- the pacer ---------------------------------------------------------------------------------

  class DcPacer {
    const period: nat
    const shift: int
    var next: nat
    var integral: int

    ghost predicate Valid()
      reads this
    {
      period > 0 && -20 * MAX_CORRECTION <= integral <= 20 * MAX_CORRECTION
    }

    constructor (period: nat, shift: int, now: nat)
      requires period > 0
      ensures Valid() && this.period == period && this.shift == shift && next == now + period && integral == 0
    {
      this.period, this.shift, next, integral := period, shift, now + period, 0;
    }

    method Reset(first: nat)
      requires Valid()
      modifies this
      ensures Valid() && next == first && integral == 0
    {
      next, integral := first, 0;
    }

    /** The deadline always moves forward, and by exactly period + correction above the clamp. */
    method Advance(dc: int)
      requires Valid()
      modifies this
      ensures Valid() && next > old(next)
      ensures integral == Corrected(dc, period, old(integral), shift, MAX_CORRECTION).0
      ensures period > MAX_CORRECTION ==>
              next == old(next) + period + Corrected(dc, period, old(integral), shift, MAX_CORRECTION).1
    {
      var corr;
      integral, corr := PhaseCorrection(dc, period, integral, shift, MAX_CORRECTION);
      var delta := if period + corr > 1 then period + corr else 1;
      next := next + delta;
    }

    /** Advance, then skip the fewest whole periods that put the deadline ahead of the clock; `now(i)` is
        the i-th reading, taken afresh before each decision. */
    method AdvanceToDeadline(dc: int, now: nat -> nat, ghost latest: nat) returns (skipped: nat, ghost first: nat)
      requires Valid() && forall i :: now(i) <= latest
      modifies this
      ensures Valid() && integral == Corrected(dc, period, old(integral), shift, MAX_CORRECTION).0
      ensures first > old(next)
      ensures period > MAX_CORRECTION ==>
              first == old(next) + period + Corrected(dc, period, old(integral), shift, MAX_CORRECTION).1
      ensures next == first + skipped * period
      ensures next > now(skipped)
      ensures forall i :: 0 <= i < skipped ==> first + i * period <= now(i)
    {
      Advance(dc);
      first := next;
      skipped := 0;
      while next <= now(skipped)
        invariant Valid() && integral == Corrected(dc, period, old(integral), shift, MAX_CORRECTION).0
        invariant next == first + skipped * period
        invariant forall i :: 0 <= i < skipped ==> first + i * period <= now(i)
        decreases latest + 1 - next
      {
        next := next + period;
        skipped := skipped + 1;
      }
    }
  }
}
