/** Fault recovery over whole runs: where reset edges appear, how far apart, and when recovery ends. */
module FaultRecovery {
  import opened Cia402
  import opened Controller

  /** What recovery depends on: the lifecycle, its two counters and bit 7 of the last word. */
  datatype Recovery = Recovery(life: Lifecycle, resetCycles: nat, clearStreak: nat, resetBit: bool)

  function ViewOf(c: Ctl): Recovery {
    Recovery(c.life, c.timers.resetCycles, c.timers.clearStreak, c.image.cw.faultReset)
  }

  /** One cycle as recovery sees it, whatever the motion mode does. */
  ghost predicate RecoveryStep(cfg: Config, v: Recovery, i: CycleIn, w: Recovery)
    requires cfg.Valid()
  {
    if i.stopping then w == v.(resetBit := false)
    else if v.life != Resetting then
      if w.life == Resetting then w == Recovery(Resetting, 0, 0, !EstopRead(cfg, i)) else !w.resetBit
    else
      var streak := if i.status.state != Fault then v.clearStreak + 1 else 0;
      if i.batch.disable then w == v.(life := Disabled, resetBit := false)
      else if streak >= cfg.confirm then w.life == Enabling && (w.resetBit <==> i.status.state == Fault)
      else if i.batch.faultReset then w == Recovery(Resetting, 0, streak, true)
      else w == Recovery(Resetting, v.resetCycles + 1, streak, EdgeDue(cfg, v.resetCycles + 1, i))
  }

  lemma LifecycleRecovers(cfg: Config, s: Ctl, i: CycleIn)
    requires cfg.Valid() && !i.stopping
    ensures RecoveryStep(cfg, ViewOf(s), i, ViewOf(StepLifecycle(cfg, s, i)))
  {
    match s.life
    case Init =>
    case Enabling =>
    case Operational => OperationalRecovers(cfg, s, i);
    case Homing => HomingRecovers(cfg, s, i);
    case Resetting =>
    case Disabled =>
  }

  lemma OperationalRecovers(cfg: Config, s: Ctl, i: CycleIn)
    requires cfg.Valid() && !i.stopping && s.life == Operational
    ensures RecoveryStep(cfg, ViewOf(s), i, ViewOf(StepOperational(cfg, s, i)))
  {
  }

  lemma HomingRecovers(cfg: Config, s: Ctl, i: CycleIn)
    requires cfg.Valid() && !i.stopping && s.life == Homing
    ensures RecoveryStep(cfg, ViewOf(s), i, ViewOf(StepHoming(cfg, s, i)))
  {
  }

  lemma CycleRecovers(cfg: Config, c: Ctl, i: CycleIn)
    requires cfg.Valid()
    ensures RecoveryStep(cfg, ViewOf(c), i, ViewOf(Cycle(cfg, c, i)))
  {
    if !i.stopping {
      SteadyCycle(cfg, c, i);
      LifecycleRecovers(cfg, Route(cfg, c.(ops := []), i), i);
    }
  }

  // --- traces of views ------------------------------------------------------------------

  ghost predicate RecoveryTrace(cfg: Config, vs: seq<Recovery>, ins: seq<CycleIn>)
    requires cfg.Valid()
  {
    |vs| == |ins| + 1 && forall k :: 0 <= k < |ins| ==> RecoveryStep(cfg, vs[k], ins[k], vs[k + 1])
  }

  function Views(cs: seq<Ctl>): seq<Recovery> { seq(|cs|, k requires 0 <= k < |cs| => ViewOf(cs[k])) }

  /** Every run of the controller is a recovery trace. */
  lemma RunRecovers(cfg: Config, cs: seq<Ctl>, ins: seq<CycleIn>)
    requires cfg.Valid() && IsRun(cfg, cs, ins)
    ensures RecoveryTrace(cfg, Views(cs), ins)
  {
    forall k | 0 <= k < |ins| ensures RecoveryStep(cfg, Views(cs)[k], ins[k], Views(cs)[k + 1]) {
      assert CycleNo(k);
      CycleRecovers(cfg, cs[k], ins[k]);
    }
  }

  /** Cycle k ships a reset edge of the driver's own, not an operator's fault-reset. */
  predicate Automatic(vs: seq<Recovery>, ins: seq<CycleIn>, k: nat)
    requires k < |ins| && |vs| == |ins| + 1
  {
    vs[k + 1].resetBit && !(vs[k].life == Resetting && ins[k].batch.faultReset)
  }

  // --- bit 7 ---------------------------------------------------------------------------

  /** Bit 7 is shipped only by a cycle that enters Resetting or stays in it, and never on the driver's
      own account in a cycle that reads the emergency-stop code. */
  lemma ResetBitOnlyInResetting(cfg: Config, cs: seq<Ctl>, ins: seq<CycleIn>, k: nat)
    requires cfg.Valid() && cfg.confirm >= 1 && IsRun(cfg, cs, ins) && k < |ins|
    ensures cs[k + 1].image.cw.faultReset ==> cs[k + 1].life == Resetting
    ensures Automatic(Views(cs), ins, k) ==> !EstopRead(cfg, ins[k])
  {
    RunRecovers(cfg, cs, ins);
    assert RecoveryStep(cfg, Views(cs)[k], ins[k], Views(cs)[k + 1]);
  }

  /** The confirm count must be at least 1: with 0, a drive still in Fault is handed back to Enabling by
      a word that carries bit 7. */
  lemma ZeroConfirmLeaksResetBit(cfg: Config, c: Ctl, i: CycleIn)
    requires cfg.Valid() && cfg.confirm == 0
    requires c.life == Resetting && !i.stopping && !i.batch.disable && i.status.state == Fault
    ensures Cycle(cfg, c, i).image.cw.faultReset && Cycle(cfg, c, i).life == Enabling
  {
    CycleRecovers(cfg, c, i);
  }

  // --- rising edges ------------------------------------------------------------------------

  /** After a word with bit 7, the pacing counter is at a window boundary. */
  predicate Paced(cfg: Config, v: Recovery)
    requires cfg.Valid()
  {
    v.resetBit ==> v.life == Resetting && OnBoundary(v.resetCycles, cfg.window)
  }

  lemma StepPaces(cfg: Config, v: Recovery, i: CycleIn, w: Recovery)
    requires cfg.Valid() && cfg.confirm >= 1 && RecoveryStep(cfg, v, i, w)
    ensures Paced(cfg, w)
  {
  }

  lemma {:induction false} NoBoundaryBetween(n: nat, k: nat, window: nat)
    requires OnBoundaryGap(n, k, window)
    ensures !OnBoundary(n + k, window)
  {
    if n >= window {
      NoBoundaryBetween(n - window, k, window);
    }
  }

  predicate OnBoundaryGap(n: nat, k: nat, window: nat) { window >= 1 && OnBoundary(n, window) && 0 < k < window }

  /** Over every run that starts with bit 7 low, each automatic reset is a true rising edge. */
  lemma ResetIsRisingEdge(cfg: Config, cs: seq<Ctl>, ins: seq<CycleIn>, k: nat)
    requires cfg.window >= 2 && cfg.confirm >= 1 && IsRun(cfg, cs, ins) && k < |ins|
    requires !cs[0].image.cw.faultReset
    requires Automatic(Views(cs), ins, k)
    ensures !cs[k].image.cw.faultReset
  {
    RunRecovers(cfg, cs, ins);
    TraceRisingEdge(cfg, Views(cs), ins, k);
  }

  lemma TraceRisingEdge(cfg: Config, vs: seq<Recovery>, ins: seq<CycleIn>, k: nat)
    requires cfg.window >= 2 && cfg.confirm >= 1 && RecoveryTrace(cfg, vs, ins) && k < |ins|
    requires !vs[0].resetBit && Automatic(vs, ins, k)
    ensures !vs[k].resetBit
  {
    if k > 0 && vs[k].resetBit {
      StepPaces(cfg, vs[k - 1], ins[k - 1], vs[k]);
      NoBoundaryBetween(vs[k].resetCycles, 1, cfg.window);
    }
  }

  // --- spacing within one stay ----------------------------------------------------------------

  /** From a boundary at state a, n cycles into a stay the counter is n further or at most n. */
  lemma {:induction false} CounterInStay(cfg: Config, vs: seq<Recovery>, ins: seq<CycleIn>, a: nat, n: nat)
    requires cfg.Valid() && RecoveryTrace(cfg, vs, ins) && a + n <= |ins|
    requires forall k :: a <= k <= a + n ==> vs[k].life == Resetting
    requires forall k :: a <= k < a + n ==> !ins[k].stopping
    ensures vs[a + n].resetCycles == vs[a].resetCycles + n || vs[a + n].resetCycles <= n
  {
    if n > 0 {
      CounterInStay(cfg, vs, ins, a, n - 1);
      assert RecoveryStep(cfg, vs[a + n - 1], ins[a + n - 1], vs[a + n]);
    }
  }

  /** Within one stay in Resetting, two automatic edges are at least a whole window apart. */
  lemma EdgesAreWindowApart(cfg: Config, cs: seq<Ctl>, ins: seq<CycleIn>, a: nat, b: nat)
    requires cfg.Valid() && cfg.confirm >= 1 && IsRun(cfg, cs, ins) && a < b < |ins| && Steady(ins)
    requires Automatic(Views(cs), ins, a) && Automatic(Views(cs), ins, b)
    requires forall k :: a < k <= b + 1 ==> cs[k].life == Resetting
    ensures b - a >= cfg.window
  {
    RunRecovers(cfg, cs, ins);
    TraceSpacing(cfg, Views(cs), ins, a, b);
  }

  lemma TraceSpacing(cfg: Config, vs: seq<Recovery>, ins: seq<CycleIn>, a: nat, b: nat)
    requires cfg.Valid() && cfg.confirm >= 1 && RecoveryTrace(cfg, vs, ins) && a < b < |ins| && Steady(ins)
    requires Automatic(vs, ins, a) && Automatic(vs, ins, b)
    requires forall k :: a < k <= b + 1 ==> vs[k].life == Resetting
    ensures b - a >= cfg.window
  {
    StepPaces(cfg, vs[a], ins[a], vs[a + 1]);
    CounterInStay(cfg, vs, ins, a + 1, b - a);
    assert RecoveryStep(cfg, vs[b], ins[b], vs[b + 1]);
    if b - a < cfg.window && vs[b + 1].resetCycles == vs[a + 1].resetCycles + (b - a) {
      NoBoundaryBetween(vs[a + 1].resetCycles, b - a, cfg.window);
    }
  }

  // --- leaving Resetting ------------------------------------------------------------------------

  /** The clear streak of a Resetting state counts the last cycles before it, all clear. */
  lemma {:induction false} StreakMeaning(cfg: Config, vs: seq<Recovery>, ins: seq<CycleIn>, n: nat, j: nat)
    requires cfg.Valid() && RecoveryTrace(cfg, vs, ins) && Steady(ins) && n <= |ins| && vs[0].life != Resetting
    requires vs[n].life == Resetting && j < vs[n].clearStreak
    ensures j < n && ins[n - 1 - j].status.state != Fault && vs[n - 1 - j].life == Resetting
  {
    assert n > 0;
    assert RecoveryStep(cfg, vs[n - 1], ins[n - 1], vs[n]);
    if j > 0 {
      StreakMeaning(cfg, vs, ins, n - 1, j - 1);
    }
  }

  /** Resetting hands back to Enabling only after the confirm streak: the last `confirm` cycles, this
      one included, all ran in Resetting and none of them read Fault. */
  lemma EnablingNeedsConfirmStreak(cfg: Config, cs: seq<Ctl>, ins: seq<CycleIn>, n: nat, j: nat)
    requires cfg.Valid() && cfg.confirm >= 1 && IsRun(cfg, cs, ins) && Steady(ins) && cs[0].life != Resetting
    requires n < |ins| && cs[n].life == Resetting && cs[n + 1].life == Enabling && j < cfg.confirm
    ensures j <= n && ins[n - j].status.state != Fault && cs[n - j].life == Resetting
  {
    RunRecovers(cfg, cs, ins);
    var vs := Views(cs);
    assert RecoveryStep(cfg, vs[n], ins[n], vs[n + 1]);
    if j > 0 {
      StreakMeaning(cfg, vs, ins, n, j - 1);
    }
  }
}
