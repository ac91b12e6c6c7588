/** What the controller's shutdown means over the stopping window of a run. */
module StoppingWindow {
  import opened Cia402
  import opened Trapezoid
  import opened MotionMode
  import opened Controller
  import opened NoLunge

  /** Cycles k .. k + n are stopping cycles of an enabled drive without a fault. */
  predicate InWindow(ins: seq<CycleIn>, k: nat, n: nat) {
    k + n <= |ins| && forall j :: k <= j < k + n ==> ins[j].stopping && ins[j].status.enabled && !ins[j].status.fault
  }

  lemma {:induction false} BrakeOneMore(g: Generator, p: CyclicParams, n: nat)
    ensures Brake(g, p, n + 1) == BrakeCycle(Brake(g, p, n), p).0
    decreases n
  {
    if n > 0 {
      BrakeOneMore(BrakeCycle(g, p).0, p, n - 1);
    } else {
      assert Brake(BrakeCycle(g, p).0, p, 0) == BrakeCycle(g, p).0;
    }
  }

  lemma StoppingCycle(cfg: Config, c: Ctl, i: CycleIn)
    requires cfg.Valid() && c.motion.Cyclic? && i.stopping && i.status.enabled && !i.status.fault
    ensures var r := Cycle(cfg, c, i);
            && r.motion.Cyclic? && (GeneratorOf(r), r.image.cw) == BrakeCycle(GeneratorOf(c), cfg.params)
            && r.image.target == WirePosition(GeneratorOf(r))
  {
    BrakeCycleIsShutdown(c.motion.cyclic, cfg.params, c.image, i.status, i.actual);
  }

  /** The window streams the braking generator, cycle by cycle. */
  lemma {:induction false} WindowFollowsBrake(cfg: Config, cs: seq<Ctl>, ins: seq<CycleIn>, k: nat, j: nat)
    requires cfg.Valid() && IsRun(cfg, cs, ins) && InWindow(ins, k, j) && cs[k].motion.Cyclic?
    ensures cs[k + j].motion.Cyclic? && GeneratorOf(cs[k + j]) == Brake(GeneratorOf(cs[k]), cfg.params, j)
    ensures j > 0 ==> cs[k + j].image.cw == BrakeCycle(Brake(GeneratorOf(cs[k]), cfg.params, j - 1), cfg.params).1
    ensures j > 0 ==> cs[k + j].image.target == WirePosition(GeneratorOf(cs[k + j]))
  {
    if j > 0 {
      WindowFollowsBrake(cfg, cs, ins, k, j - 1);
      NextStopping(cfg, cs, ins, k + j - 1);
      BrakeOneMore(GeneratorOf(cs[k]), cfg.params, j - 1);
    }
  }

  lemma NextStopping(cfg: Config, cs: seq<Ctl>, ins: seq<CycleIn>, k: nat)
    requires cfg.Valid() && IsRun(cfg, cs, ins) && InWindow(ins, k, 1) && cs[k].motion.Cyclic?
    ensures cs[k + 1].motion.Cyclic?
    ensures (GeneratorOf(cs[k + 1]), cs[k + 1].image.cw) == BrakeCycle(GeneratorOf(cs[k]), cfg.params)
    ensures cs[k + 1].image.target == WirePosition(GeneratorOf(cs[k + 1]))
  {
    assert CycleNo(k);
    StoppingCycle(cfg, cs[k], ins[k]);
  }

  lemma {:induction false} HoldingStays(g: Generator, p: CyclicParams, m: nat, n: nat)
    requires m <= n && Brake(g, p, m).phase == Holding
    ensures Brake(g, p, n) == Brake(g, p, m)
    decreases n
  {
    if m < n {
      HoldingStays(g, p, m, n - 1);
      BrakeOneMore(g, p, n - 1);
    }
  }

  /** In the stopping window of any run that keeps the speed ceiling, an enabled drive is streamed the stop
      ramp with enable-operation and gets disable-voltage exactly from the known cycle on, at rest, and
      that cycle is at least 17 before the window's end (cap inactive). */
  lemma WindowStopsAtRest(cfg: Config, cs: seq<Ctl>, ins: seq<CycleIn>, k: nat, j: nat)
    requires cfg.Valid() && IsRun(cfg, cs, ins) && InWindow(ins, k, j) && j >= 1
    requires Driven(cs[0], cfg.params) && ObeysCeiling(cfg.params)
    requires forall i :: 0 <= i < |ins| ==> Clamped(ins[i].batch, cfg.params)
    requires cfg.params.accel > 0.0 && cfg.params.dt > 0.0 && cfg.params.maxVelocity >= 0.0
    requires cfg.params.maxVelocity / cfg.params.accel / cfg.params.dt + 20.0 <= 60000.0
    ensures cs[k].motion.Cyclic? && cs[k + j].motion.Cyclic?
    ensures var d := CyclesToDisable(GeneratorOf(cs[k]), cfg.params);
            && d <= ShutdownCycles(cfg.params) - 17
            && cs[k + j].image.cw == (if j < d then ENABLE_OPERATION else DISABLE_VOLTAGE)
            && cs[k + j].image.target == WirePosition(GeneratorOf(cs[k + j]))
            && (j >= d ==> GeneratorOf(cs[k + j]).state.velocity == 0.0)
  {
    ReachableShutdownFitsWindow(cfg, cs, ins, k);
    WindowFollowsBrake(cfg, cs, ins, k, j);
    var g, p := GeneratorOf(cs[k]), cfg.params;
    var d := CyclesToDisable(g, p);
    if j >= d {
      HoldingStays(g, p, d - 1, j - 1);
      HoldingStays(g, p, d - 1, j);
    }
  }

  /** In profile mode the word of a stopping cycle: the drive's own quick-stop ramp while it was energized,
      is not faulted and not yet off, when a deceleration is configured; disable-voltage otherwise. */
  lemma ProfileStopWord(cfg: Config, c: Ctl, i: CycleIn)
    requires cfg.Valid() && c.motion.Profile? && i.stopping
    ensures Cycle(cfg, c, i).image.cw ==
            if cfg.quickStopDecel > 0 && c.motion.profile.sequencer.announcedOp
               && !i.status.fault && !i.status.switchOnDisabled then QUICK_STOP_RAMP else DISABLE_VOLTAGE
    ensures Cycle(cfg, c, i).stopAtRest <==> i.status.switchOnDisabled
  {
  }
}
