/** "At rest", said of the actual positions alone. */
module RestWindow {
  import opened Arith
  import opened Cia402
  import opened Controller
  import opened CycleSteps

  /** The ring after a run of pushes. */
  function Pushed(r: Ring, tolerance: int, actuals: seq<int>): Ring {
    if actuals == [] then r
    else PushActual(Pushed(r, tolerance, actuals[..|actuals| - 1]), tolerance, actuals[|actuals| - 1])
  }

  /** The last w actuals, oldest first. */
  function LastOnes(actuals: seq<int>, w: nat): seq<int>
    requires w <= |actuals|
  {
    actuals[|actuals| - w..]
  }

  /** The ring holds exactly the last actuals: a prefix while it fills, then rotated at the next place. */
  predicate Holds(r: Ring, w: nat, actuals: seq<int>) {
    && |r.values| == w > 0 && r.index < w
    && if |actuals| < w then r.index == r.filled == |actuals| && r.values[..r.index] == actuals
       else r.filled == w && r.values[r.index..] + r.values[..r.index] == LastOnes(actuals, w)
  }

  /** Every two of them differ by at most the tolerance, in any order of storage. */
  lemma RotationIsWithin(values: seq<int>, k: nat, tolerance: int)
    requires k <= |values|
    ensures Within(values[k..] + values[..k], tolerance) <==> Within(values, tolerance)
  {
    var rotated := values[k..] + values[..k];
    var n := |values| - k;
    if Within(rotated, tolerance) {
      forall a, b | 0 <= a < |values| && 0 <= b < |values| ensures values[a] - values[b] <= tolerance {
        var x, y := if a < k then n + a else a - k, if b < k then n + b else b - k;
        assert rotated[x] == values[a] && rotated[y] == values[b];
      }
    }
  }

  /** The last w actuals after one more. */
  lemma LastOneMore(actuals: seq<int>, w: nat, a: int)
    requires 0 < w <= |actuals| + 1
    ensures LastOnes(actuals + [a], w) == (if w <= |actuals| then LastOnes(actuals, w)[1..] else actuals) + [a]
  {
  }

  /** The ring holds the last actuals, and says at rest exactly when it had been full and they are within the
      tolerance of each other. */
  predicate Tells(r: Ring, w: nat, tolerance: int, actuals: seq<int>) {
    && Holds(r, w, actuals)
    && (r.atRest <==> |actuals| > w && Within(LastOnes(actuals, w), tolerance))
  }

  lemma PushTells(r: Ring, tolerance: int, w: nat, actuals: seq<int>, a: int)
    requires Holds(r, w, actuals)
    ensures Tells(PushActual(r, tolerance, a), w, tolerance, actuals + [a])
  {
    var s := PushActual(r, tolerance, a);
    NextInRing(r.index, w);
    if w <= |actuals| + 1 {
      LastOneMore(actuals, w, a);
    }
    if |actuals| >= w {
      assert s.values[s.index..] + s.values[..s.index] == (r.values[r.index..] + r.values[..r.index])[1..] + [a];
      RotationIsWithin(s.values, s.index, tolerance);
    } else if |actuals| + 1 == w {
      assert s.values[0..] + s.values[..0] == s.values;
    }
  }

  lemma {:induction false} NoRingNoRest(tolerance: int, actuals: seq<int>, zeros: Ring)
    requires zeros.values == [] && !zeros.atRest
    ensures var r := Pushed(zeros, tolerance, actuals); r.values == [] && !r.atRest
  {
    if actuals != [] {
      NoRingNoRest(tolerance, actuals[..|actuals| - 1], zeros);
    }
  }

  /** From an empty ring of w places, after any actuals: at rest exactly when there were more than w of them
      and every two of the last w differ by at most the tolerance. */
  lemma {:induction false} AtRestExactly(tolerance: int, w: nat, actuals: seq<int>, zeros: Ring)
    requires |zeros.values| == w && zeros.index == 0 && zeros.filled == 0 && !zeros.atRest
    ensures var r := Pushed(zeros, tolerance, actuals);
            r.atRest <==> w > 0 && |actuals| > w && Within(LastOnes(actuals, w), tolerance)
  {
    if w == 0 {
      NoRingNoRest(tolerance, actuals, zeros);
    } else {
      PushedTells(tolerance, w, actuals, zeros);
    }
  }

  lemma {:induction false} PushedTells(tolerance: int, w: nat, actuals: seq<int>, zeros: Ring)
    requires |zeros.values| == w > 0 && zeros.index == 0 && zeros.filled == 0 && !zeros.atRest
    ensures Tells(Pushed(zeros, tolerance, actuals), w, tolerance, actuals)
  {
    if actuals != [] {
      var pre, a := actuals[..|actuals| - 1], actuals[|actuals| - 1];
      var r := Pushed(zeros, tolerance, pre);
      assert Holds(r, w, pre) by {
        PushedTells(tolerance, w, pre, zeros);
      }
      PushTells(r, tolerance, w, pre, a);
      assert actuals == pre + [a];
    }
  }

  // --- over runs -------------------------------------------------------------------------------------

  lemma StepKeepsRing(cfg: Config, s: Ctl, i: CycleIn)
    requires cfg.Valid()
    ensures StepLifecycle(cfg, s, i).ring == s.ring
  {
    match s.life
    case Enabling => EnablingKeepsRing(cfg, s, i);
    case Operational => OperationalKeepsRing(cfg, s, i);
    case Homing => HomingKeepsRing(cfg, s, i);
    case _ =>
  }

  lemma EnablingKeepsRing(cfg: Config, s: Ctl, i: CycleIn)
    ensures StepEnabling(cfg, s, i).ring == s.ring
  {
  }

  lemma OperationalKeepsRing(cfg: Config, s: Ctl, i: CycleIn)
    ensures StepOperational(cfg, s, i).ring == s.ring
  {
  }

  lemma HomingKeepsRing(cfg: Config, s: Ctl, i: CycleIn)
    ensures StepHoming(cfg, s, i).ring == s.ring
  {
    FinishKeepsRing(cfg, s, i, DriveFaulted);
    FinishKeepsRing(cfg, s, i, Cancelled);
    ProcedureKeepsRing(if cfg.modeMapped then s.(image := s.image.(mode := HOMING_MODE)) else s, i);
  }

  lemma FinishKeepsRing(cfg: Config, s: Ctl, i: CycleIn, fail: HomingFail)
    ensures FinishHoming(s, fail).ring == s.ring
    ensures EnterResetting(cfg, FinishHoming(s, fail), i).ring == s.ring
  {
  }

  lemma ProcedureKeepsRing(s: Ctl, i: CycleIn)
    ensures RunProcedure(s, i).ring == s.ring
  {
  }

  /** Every cycle, whatever its inputs, pushes exactly its actual. */
  lemma CyclePushesActual(cfg: Config, c: Ctl, i: CycleIn)
    requires cfg.Valid()
    ensures Cycle(cfg, c, i).ring == PushActual(c.ring, cfg.tolerance, i.actual)
  {
    var s := Entered(cfg, c, i);
    CycleInSteps(cfg, c, i);
    EnteredUntouched(cfg, c, i);
    if !i.stopping {
      StepKeepsRing(cfg, s, i);
    }
  }

  function Actuals(ins: seq<CycleIn>, n: nat): (r: seq<int>)
    requires n <= |ins|
    ensures |r| == n
  {
    seq(n, k requires 0 <= k < n => ins[k].actual)
  }

  lemma NextPushes(cfg: Config, cs: seq<Ctl>, ins: seq<CycleIn>, k: nat)
    requires cfg.Valid() && IsRun(cfg, cs, ins) && k < |ins|
    ensures cs[k + 1].ring == PushActual(cs[k].ring, cfg.tolerance, ins[k].actual)
  {
    assert CycleNo(k);
    CyclePushesActual(cfg, cs[k], ins[k]);
  }

  lemma {:induction false} RunPushes(cfg: Config, cs: seq<Ctl>, ins: seq<CycleIn>, n: nat)
    requires cfg.Valid() && IsRun(cfg, cs, ins) && n <= |ins|
    ensures cs[n].ring == Pushed(cs[0].ring, cfg.tolerance, Actuals(ins, n))
  {
    if n > 0 {
      RunPushes(cfg, cs, ins, n - 1);
      NextPushes(cfg, cs, ins, n - 1);
      assert Actuals(ins, n)[..n - 1] == Actuals(ins, n - 1);
    }
  }

  /** Over every run from a fresh ring of w places, with any statuswords and commands: the shaft counts as at
      rest after n cycles exactly when n > w and the actuals of the last w cycles all lie within the
      tolerance of each other. */
  lemma RestOverRun(cfg: Config, cs: seq<Ctl>, ins: seq<CycleIn>, w: nat, n: nat)
    requires cfg.Valid() && IsRun(cfg, cs, ins) && n <= |ins|
    requires cs[0].ring == RingValue(seq(w, _ => 0), 0, 0, false)
    ensures cs[n].ring.atRest <==>
              && 0 < w < n
              && forall j, k :: n - w <= j < n && n - w <= k < n ==> ins[j].actual - ins[k].actual <= cfg.tolerance
  {
    RunPushes(cfg, cs, ins, n);
    AtRestExactly(cfg.tolerance, w, Actuals(ins, n), cs[0].ring);
    if 0 < w < n {
      LastActuals(ins, w, n, cfg.tolerance);
    }
  }

  lemma LastActuals(ins: seq<CycleIn>, w: nat, n: nat, tolerance: int)
    requires 0 < w < n <= |ins|
    ensures Within(LastOnes(Actuals(ins, n), w), tolerance) <==>
              forall j, k :: n - w <= j < n && n - w <= k < n ==> ins[j].actual - ins[k].actual <= tolerance
  {
    var last := LastOnes(Actuals(ins, n), w);
    if Within(last, tolerance) {
      forall j, k | n - w <= j < n && n - w <= k < n ensures ins[j].actual - ins[k].actual <= tolerance {
        assert last[j - (n - w)] == ins[j].actual && last[k - (n - w)] == ins[k].actual;
      }
    }
  }
}
