/** Cyclic position streaming: what is on the wire is what the generator says, and it never lunges. */
module NoLunge {
  import opened Commands
  import opened Trapezoid
  import opened MotionMode
  import opened Controller

  /** The staged 0x607A is the generator's wire position. */
  predicate OnWire(c: Ctl) { c.motion.Cyclic? && c.image.target == WirePosition(GeneratorOf(c)) }

  /** Every bring-up dispatch stages the actual position. */
  lemma BringupStagesActual(c: Ctl, actual: int)
    requires c.motion.Cyclic? && IsInt32(actual)
    ensures OnWire(Track(c, actual)) && Track(c, actual).image.target == actual
  {
    WireOfCount(actual);
  }

  /** A lifecycle step keeps the wire in step whenever it ends in Operational. */
  lemma StepOnWire(cfg: Config, s: Ctl, i: CycleIn)
    requires cfg.Valid() && OnWire(s)
    ensures var r := StepLifecycle(cfg, s, i);
            && r.motion.Cyclic?
            && (r.life == Operational ==> OnWire(r))
            && (r.life == Operational && s.life != Operational ==> r.image.target == s.image.target)
  {
    match s.life
    case Init =>
    case Enabling =>
    case Operational =>
    case Homing =>
    case Resetting =>
    case Disabled =>
  }

  /** One cycle as the wire sees it. */
  ghost predicate WireStep(c: Ctl, i: CycleIn, r: Ctl) {
    && OnWire(r)
    && (!i.stopping && r.life != Operational ==> r.image.target == i.actual)
    && (!i.stopping && r.life == Operational && c.life != Operational ==> r.image.target == c.image.target)
  }

  lemma CycleOnWire(cfg: Config, c: Ctl, i: CycleIn)
    requires cfg.Valid() && OnWire(c) && IsInt32(i.actual)
    ensures WireStep(c, i, Cycle(cfg, c, i))
  {
    WireOfCount(i.actual);
    if !i.stopping {
      StepOnWire(cfg, Route(cfg, c.(ops := []), i), i);
    }
  }

  lemma NextOnWire(cfg: Config, cs: seq<Ctl>, ins: seq<CycleIn>, k: nat)
    requires cfg.Valid() && IsRun(cfg, cs, ins) && k < |ins| && OnWire(cs[k]) && IsInt32(ins[k].actual)
    ensures WireStep(cs[k], ins[k], cs[k + 1])
  {
    assert CycleNo(k);
    CycleOnWire(cfg, cs[k], ins[k]);
  }

  /** Over every run with any statuswords, faults and commands, from a state a bring-up dispatch left: at
      the end of each cycle 0x607A is the generator's wire position; outside Operational it is that
      cycle's actual; and a cycle that enters Operational still shows the previous cycle's actual. So
      the zero a mode reset seeds never reaches the wire. */
  lemma {:induction false} NoLungeOverRun(cfg: Config, cs: seq<Ctl>, ins: seq<CycleIn>, k: nat)
    requires cfg.Valid() && IsRun(cfg, cs, ins) && k < |ins| && OnWire(cs[0])
    requires forall j :: 0 <= j < |ins| ==> IsInt32(ins[j].actual)
    ensures OnWire(cs[k + 1])
    ensures !ins[k].stopping && cs[k + 1].life != Operational ==> cs[k + 1].image.target == ins[k].actual
    ensures k > 0 && Controller.Steady(ins) && cs[k].life != Operational && cs[k + 1].life == Operational
            ==> cs[k + 1].image.target == ins[k - 1].actual
  {
    if k > 0 {
      NoLungeOverRun(cfg, cs, ins, k - 1);
    }
    NextOnWire(cfg, cs, ins, k);
  }

  // --- a reachable generator can always be stopped inside the window ---------------------------

  /** Speed stays within the ceiling, and so does what the generator is told to reach. */
  predicate Capped(g: Generator, ceiling: real) {
    && Abs(g.state.velocity) <= ceiling
    && (g.phase == VelocityRun ==> Abs(g.vTarget) <= ceiling)
    && (g.phase == Positioning ==> 0.0 < g.vMax <= ceiling && g.accel > 0.0)
  }

  /** The positioning profile's contract, for the calls the generator makes (positive period and limits, a
      goal at rest): it never leaves a speed limit it was given and met. */
  ghost predicate ObeysCeiling(p: CyclicParams) {
    forall dt: real, v: real, a: real, s: Kinematic, g: Kinematic ::
      dt > 0.0 && 0.0 < v <= p.maxVelocity && a > 0.0 && g.velocity == 0.0 && Abs(s.velocity) <= p.maxVelocity
      ==> Abs(p.profile(dt, v, a, s, g).velocity) <= p.maxVelocity
  }

  predicate Driven(c: Ctl, p: CyclicParams) {
    c.motion.Cyclic? && Tuned(GeneratorOf(c), p) && Capped(GeneratorOf(c), p.maxVelocity)
  }

  /** The API clamps every commanded speed to the ceiling before it is queued. */
  predicate Clamped(b: Batch, p: CyclicParams) {
    && (b.setTarget.Some? ==> b.setTarget.value.profileVelocity as real <= p.maxVelocity)
    && (b.setVelocity.Some? ==> Abs(b.setVelocity.value as real) <= p.maxVelocity)
  }

  lemma RampStaysCapped(k: Kinematic, vTarget: real, accel: real, dt: real, ceiling: real)
    requires Abs(k.velocity) <= ceiling && Abs(vTarget) <= ceiling && accel * dt >= 0.0
    ensures Abs(RampStep(k, vTarget, accel, dt).velocity) <= ceiling
  {
    assert RampStep(k, vTarget, accel, dt).velocity == k.velocity + Clamp(vTarget - k.velocity, accel * dt);
  }

  lemma StepStaysCapped(g: Generator, p: CyclicParams)
    requires p.accel > 0.0 && p.dt > 0.0 && p.maxVelocity >= 0.0 && ObeysCeiling(p)
    requires Tuned(g, p) && Capped(g, p.maxVelocity)
    ensures Capped(StepGenerator(g, p.profile, p.dt), p.maxVelocity)
  {
    if g.phase == VelocityRun {
      assert p.accel * p.dt > 0.0;
      RampStaysCapped(g.state, g.vTarget, g.accel, p.dt, p.maxVelocity);
    }
  }

  lemma RouteDriven(cfg: Config, c: Ctl, i: CycleIn)
    requires Driven(c, cfg.params) && Clamped(i.batch, cfg.params)
    requires cfg.params.accel > 0.0 && cfg.params.maxVelocity >= 0.0
    ensures Driven(Route(cfg, c, i), cfg.params)
  {
    var r := RouteStops(cfg, c, i.batch);
    RouteStopsDriven(cfg, c, i.batch);
    var t := RouteTarget(cfg, r, i.batch, i.actual);
    RouteTargetDriven(cfg, r, i.batch, i.actual);
    RouteRestDriven(cfg, t, i.batch);
  }

  lemma RouteStopsDriven(cfg: Config, c: Ctl, b: Batch)
    requires Driven(c, cfg.params) && cfg.params.accel > 0.0 && cfg.params.maxVelocity >= 0.0
    ensures Driven(RouteStops(cfg, c, b), cfg.params)
  {
  }

  lemma RouteTargetDriven(cfg: Config, c: Ctl, b: Batch, actual: int)
    requires Driven(c, cfg.params) && Clamped(b, cfg.params)
    ensures Driven(RouteTarget(cfg, c, b, actual), cfg.params)
  {
  }

  lemma RouteRestDriven(cfg: Config, c: Ctl, b: Batch)
    requires Driven(c, cfg.params) && Clamped(b, cfg.params)
    ensures Driven(RouteRest(cfg, c, b), cfg.params)
  {
  }

  lemma StepDriven(cfg: Config, s: Ctl, i: CycleIn)
    requires cfg.Valid() && Driven(s, cfg.params) && ObeysCeiling(cfg.params)
    requires cfg.params.accel > 0.0 && cfg.params.dt > 0.0 && cfg.params.maxVelocity >= 0.0
    ensures Driven(StepLifecycle(cfg, s, i), cfg.params)
  {
    match s.life
    case Init =>
    case Enabling =>
    case Operational =>
      StepStaysCapped(GeneratorOf(s), cfg.params);
      HoldingIsRest(GeneratorOf(s), cfg.params.profile, cfg.params.dt, 0, 0.0, cfg.params.accel);
    case Homing =>
    case Resetting =>
    case Disabled =>
  }

  lemma ShutdownDriven(cfg: Config, c: Ctl, i: CycleIn)
    requires Driven(c, cfg.params) && ObeysCeiling(cfg.params)
    requires cfg.params.accel > 0.0 && cfg.params.dt > 0.0 && cfg.params.maxVelocity >= 0.0
    ensures Driven(Shutdown(cfg, c, i), cfg.params)
  {
    var g, p := GeneratorOf(c), cfg.params;
    StepsKeepTuned(c.motion.cyclic, p, c.image, i.status, i.actual);
    if i.status.enabled && !i.status.fault && g.phase != Holding {
      var b := Braked(g, p);
      assert Tuned(b, p) && Capped(b, p.maxVelocity);
      StepStaysCapped(b, p);
    }
  }

  lemma CycleDriven(cfg: Config, c: Ctl, i: CycleIn)
    requires cfg.Valid() && Driven(c, cfg.params) && Clamped(i.batch, cfg.params) && ObeysCeiling(cfg.params)
    requires cfg.params.accel > 0.0 && cfg.params.dt > 0.0 && cfg.params.maxVelocity >= 0.0
    ensures Driven(Cycle(cfg, c, i), cfg.params)
  {
    var b := c.(ops := []);
    if i.stopping {
      ShutdownDriven(cfg, b, i);
    } else {
      RouteDriven(cfg, b, i);
      StepDriven(cfg, Route(cfg, b, i), i);
    }
  }

  lemma NextDriven(cfg: Config, cs: seq<Ctl>, ins: seq<CycleIn>, k: nat)
    requires cfg.Valid() && IsRun(cfg, cs, ins) && k < |ins| && Driven(cs[k], cfg.params)
    requires Clamped(ins[k].batch, cfg.params) && ObeysCeiling(cfg.params)
    requires cfg.params.accel > 0.0 && cfg.params.dt > 0.0 && cfg.params.maxVelocity >= 0.0
    ensures Driven(cs[k + 1], cfg.params)
  {
    assert CycleNo(k);
    CycleDriven(cfg, cs[k], ins[k]);
  }

  /** From every state a run can reach, a shutdown of an enabled, unfaulted drive reaches rest and
      disables voltage at least 17 cycles before the teardown window ends (cap inactive). */
  lemma {:induction false} ReachableShutdownFitsWindow(cfg: Config, cs: seq<Ctl>, ins: seq<CycleIn>, k: nat)
    requires cfg.Valid() && IsRun(cfg, cs, ins) && k <= |ins|
    requires Driven(cs[0], cfg.params) && ObeysCeiling(cfg.params)
    requires forall j :: 0 <= j < |ins| ==> Clamped(ins[j].batch, cfg.params)
    requires cfg.params.accel > 0.0 && cfg.params.dt > 0.0 && cfg.params.maxVelocity >= 0.0
    requires cfg.params.maxVelocity / cfg.params.accel / cfg.params.dt + 20.0 <= 60000.0
    ensures Driven(cs[k], cfg.params)
    ensures var g := GeneratorOf(cs[k]);
            && 1 <= CyclesToDisable(g, cfg.params) <= ShutdownCycles(cfg.params) - 17
            && DisablesFirstAt(g, cfg.params, CyclesToDisable(g, cfg.params))
  {
    if k > 0 {
      ReachableShutdownFitsWindow(cfg, cs, ins, k - 1);
      NextDriven(cfg, cs, ins, k - 1);
    }
    ShutdownFitsWindow(GeneratorOf(cs[k]), cfg.params);
  }
}
