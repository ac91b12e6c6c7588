/** What is streamed: a velocity run of the generator reaches its velocity and keeps it, and in profile mode the
    drive is given the commanded set-point or velocity. */
module Streaming {
  import opened Cia402
  import opened Commands
  import opened Sequencer
  import opened Trapezoid
  import opened MotionMode
  import opened Controller
  import opened CycleSteps
  import opened Energizing

  // --- a velocity run ----------------------------------------------------------------------------

  /** n steps of the generator. */
  function Steps(g: Generator, profile: Profile, dt: real, n: nat): Generator {
    if n == 0 then g else StepGenerator(Steps(g, profile, dt, n - 1), profile, dt)
  }

  function Max(x: real, y: real): real { if x < y then y else x }

  /** Between the two velocities, both included. */
  predicate Between(x: real, v: real, w: real) { v <= x <= w || w <= x <= v }

  /** r has come `near` closer to v than g was, from its own side and never past it; and it holds exactly when v is
      0 and reached. */
  predicate Nearer(g: Generator, r: Generator, v: real, accel: real, near: real) {
    && Trapezoid.Abs(v - r.state.velocity) == Max(0.0, Trapezoid.Abs(v - g.state.velocity) - near)
    && Between(r.state.velocity, g.state.velocity, v)
    && r.vTarget == v && r.accel == accel
    && (r.phase == Holding <==> v == 0.0 && r.state.velocity == 0.0)
    && r.phase != Positioning
  }

  lemma StartsOut(g: Generator, v: real, accel: real)
    requires accel > 0.0
    ensures Nearer(g, SetVelocity(g, v, accel), v, accel, 0.0)
  {
  }

  lemma TimesOneMore(n: nat, d: real)
    ensures (n + 1) as real * d == n as real * d + d && 0 as real * d == 0.0
  {
    assert (n + 1) as real == n as real + 1.0;
  }

  /** From any state, told to run at v: n steps bring the velocity n times accel dt closer to v, so it is v after
      ceil(|v - v0| / (accel dt)) steps, and stays. */
  lemma {:induction false} VelocityIsReached(g: Generator, profile: Profile, dt: real, v: real, accel: real, n: nat,
                                             near: real)
    requires dt > 0.0 && accel > 0.0 && near == n as real * (accel * dt)
    ensures Nearer(g, Steps(SetVelocity(g, v, accel), profile, dt, n), v, accel, near)
  {
    if n == 0 {
      TimesOneMore(0, accel * dt);
      StartsOut(g, v, accel);
    } else {
      TimesOneMore(n - 1, accel * dt);
      VelocityIsReached(g, profile, dt, v, accel, n - 1, near - accel * dt);
      NearerByOne(g, Steps(SetVelocity(g, v, accel), profile, dt, n - 1), profile, dt, v, accel, near - accel * dt);
    }
  }

  lemma NearerByOne(g: Generator, q: Generator, profile: Profile, dt: real, v: real, accel: real, near: real)
    requires dt > 0.0 && accel > 0.0 && Nearer(g, q, v, accel, near)
    ensures Nearer(g, StepGenerator(q, profile, dt), v, accel, near + accel * dt)
  {
    assert accel * dt > 0.0;
    OneStepCloser(q, profile, dt);
    Shrinks(Trapezoid.Abs(v - g.state.velocity) - near, accel * dt);
  }

  lemma Shrinks(x: real, d: real)
    requires d > 0.0
    ensures Max(0.0, Max(0.0, x) - d) == Max(0.0, x - d)
  {
  }

  /** One step, told apart from the formula it is computed by: the gap to the commanded velocity shrinks by accel
      dt or closes, and the position moves by the mean of both velocities. */
  lemma OneStepCloser(g: Generator, profile: Profile, dt: real)
    requires dt > 0.0 && g.accel * dt > 0.0 && g.phase != Positioning
    requires g.phase == Holding ==> g.vTarget == g.state.velocity == 0.0
    ensures var r := StepGenerator(g, profile, dt);
            var gap := Trapezoid.Abs(g.vTarget - g.state.velocity);
            && Trapezoid.Abs(g.vTarget - r.state.velocity) == Max(0.0, gap - g.accel * dt)
            && Between(r.state.velocity, g.state.velocity, g.vTarget)
            && r.vTarget == g.vTarget && r.accel == g.accel && r.phase != Positioning
            && (r.phase == Holding <==> g.vTarget == 0.0 && r.state.velocity == 0.0)
            && r.state.position - g.state.position == (g.state.velocity + r.state.velocity) / 2.0 * dt
  {
    if g.phase != Holding {
      RampCloser(g.state, g.vTarget, g.accel, dt);
    }
  }

  lemma RampCloser(k: Kinematic, v: real, accel: real, dt: real)
    requires dt > 0.0 && accel * dt > 0.0
    ensures var r := RampStep(k, v, accel, dt);
            && Trapezoid.Abs(v - r.velocity) == Max(0.0, Trapezoid.Abs(v - k.velocity) - accel * dt)
            && Between(r.velocity, k.velocity, v)
            && r.position - k.position == (k.velocity + r.velocity) / 2.0 * dt
  {
  }

  // --- a positioning move ------------------------------------------------------------------------

  /** The profile sampled n times, dt apart, towards rest at the goal. */
  function Sampled(g: Generator, profile: Profile, dt: real, n: nat): Kinematic {
    if n == 0 then g.state
    else profile(dt, g.vMax, g.accel, Sampled(g, profile, dt, n - 1), Kinematic(g.goal as real, 0.0))
  }

  /** Some sample up to the n-th is the goal, at rest. */
  predicate Arrives(g: Generator, profile: Profile, dt: real, n: nat) {
    n > 0 && (Arrives(g, profile, dt, n - 1) || Sampled(g, profile, dt, n) == Kinematic(g.goal as real, 0.0))
  }

  /** From any state, told to go to a goal: the generator follows the profile's samples with the move's own limits, is
      holding exactly from the first sample that is the goal at rest, and then stays there, its goal on the
      wire. */
  lemma {:induction false} GoalIsHeld(g: Generator, profile: Profile, dt: real, goal: int, v: real, a: real, n: nat)
    requires dt > 0.0 && v > 0.0 && a > 0.0 && IsInt32(goal)
    ensures var s := SetGoal(g, goal, v, a);
            var r := Steps(s, profile, dt, n);
            && s.goal == goal && s.vMax == v && s.accel == a && s.state == g.state
            && r.(state := s.state, phase := s.phase) == s
            && (r.phase == Holding <==> Arrives(s, profile, dt, n)) && r.phase != VelocityRun
            && (r.phase == Holding ==> r.state == Kinematic(goal as real, 0.0) && WirePosition(r) == goal)
            && (r.phase != Holding ==> r.state == Sampled(s, profile, dt, n))
  {
    WireOfCount(goal);
    if n > 0 {
      GoalIsHeld(g, profile, dt, goal, v, a, n - 1);
    }
  }

  /** The wire carries the nearest count, halves away from zero. */
  lemma WireIsNearest(p: real)
    requires -0x8000_0000 as real <= p <= 0x7FFF_FFFF as real
    ensures var off := ToWire(p) as real - p; if p >= 0.0 then -0.5 < off <= 0.5 else -0.5 <= off < 0.5
  {
  }

  // --- profile mode ------------------------------------------------------------------------------

  /** The drive is enabled and the mode runs, in the mode it checked. */
  predicate Operating(s: Ctl, i: CycleIn) {
    FateOf(s, i) == Runs && s.motion.Profile? && i.status.enabled && !ModeRefused(s.motion.profile, i)
  }

  lemma ModeOnWire(m: ProfileMode, img: Image, fb: Feedback, i: CycleIn)
    requires fb.status == i.status && fb.echo == i.echo && i.status.enabled && i.status.state != Fault
    requires !ModeRefused(m, i)
    ensures var out := ProfileStep(m, img, fb).image;
            && out.mode == m.intent && out.cw.halt == m.halted && out.cw.command == ENABLE_OPERATION.command
            && (if m.intent == PROFILE_VELOCITY then
                  out.targetVelocity == (if Echoed(PROFILE_VELOCITY, i.echo) then m.velocity else 0)
                  && !out.cw.newSetpoint
                else out.target == m.target && out.profileVelocity == m.profileVelocity)
  {
  }

  /** What an operating cycle gives the drive: the commanded mode and Halt, and either the commanded velocity (0
      while the drive does not echo the velocity mode) or the set-point with its speed. */
  lemma CommandIsOnWire(cfg: Config, c: Ctl, i: CycleIn)
    requires cfg.Valid() && Operating(Entered(cfg, c, i), i)
    ensures var m, out := Entered(cfg, c, i).motion.profile, Cycle(cfg, c, i).image;
            && out.mode == m.intent && out.cw.halt == m.halted && out.cw.command == ENABLE_OPERATION.command
            && (if m.intent == PROFILE_VELOCITY then
                  out.targetVelocity == (if Echoed(PROFILE_VELOCITY, i.echo) then m.velocity else 0)
                  && !out.cw.newSetpoint
                else out.target == m.target && out.profileVelocity == m.profileVelocity)
  {
    var s := Entered(cfg, c, i);
    CycleInSteps(cfg, c, i);
    RunsTheMode(cfg, s, i);
    ModeOnWire(s.motion.profile, s.image, SeenBy(cfg, s, i), i);
  }

  lemma RunsTheMode(cfg: Config, s: Ctl, i: CycleIn)
    requires cfg.Valid() && FateOf(s, i) == Runs && s.motion.Profile?
    ensures var out, r := ProfileStep(s.motion.profile, s.image, SeenBy(cfg, s, i)), Stepped(cfg, s, i);
            r.image == out.image && r.motion == Profile(out.mode) && r.life == Operational
  {
    assert StepLifecycle(cfg, s, i) == StepMotion(cfg, s, i);
  }

  /** Halt after the commands of a cycle: a new target or a velocity releases it, whatever came with it; else a
      halt that is the last of the stop-relevant commands sets it, and nothing else changes it. */
  lemma HaltAfterRouting(cfg: Config, c: Ctl, i: CycleIn)
    requires !i.stopping && c.motion.Profile?
    ensures var s := Entered(cfg, c, i);
            && s.motion.Profile?
            && (s.motion.profile.halted <==>
                  && !Renews(c, i) && i.batch.setVelocity.None?
                  && (c.motion.profile.halted || (i.batch.halt && i.batch.haltSupersedes)))
  {
    var s := RouteStops(cfg, c.(ops := []), i.batch);
    HaltInStops(cfg, c.(ops := []), i.batch);
    HaltInTarget(cfg, s, i.batch, i.actual);
    RestUntouched(cfg, RouteTarget(cfg, s, i.batch, i.actual), i.batch);
  }

  lemma HaltInStops(cfg: Config, c: Ctl, b: Batch)
    requires c.motion.Profile?
    ensures var r := RouteStops(cfg, c, b);
            && r.motion.Profile? && r.atoms.active == c.atoms.active
            && (r.motion.profile.halted <==> c.motion.profile.halted || (b.halt && b.haltSupersedes))
  {
  }

  lemma HaltInTarget(cfg: Config, c: Ctl, b: Batch, actual: int)
    requires c.motion.Profile?
    ensures var r := RouteTarget(cfg, c, b, actual);
            && r.motion.Profile?
            && (r.motion.profile.halted <==>
                  c.motion.profile.halted
                  && !(b.setTarget.Some? && b.setTarget.value.generation != c.atoms.active))
  {
  }

  /** And the mode's own cycle leaves it alone. */
  lemma HaltOutlastsCycle(cfg: Config, c: Ctl, i: CycleIn)
    requires cfg.Valid() && FateOf(Entered(cfg, c, i), i) == Runs && Entered(cfg, c, i).motion.Profile?
    ensures var r := Cycle(cfg, c, i);
            r.motion.Profile? && r.motion.profile.halted == Entered(cfg, c, i).motion.profile.halted
  {
    CycleInSteps(cfg, c, i);
    RunsTheMode(cfg, Entered(cfg, c, i), i);
    GateKeepsHalt(Entered(cfg, c, i).motion.profile, i.echo);
  }

  lemma GateKeepsHalt(m: ProfileMode, echo: Option<int>)
    ensures ProfileGate(m, echo).halted == m.halted
  {
  }

  /** A mode the drive did not follow for 200 cycles is reported, and given up for the mode it echoes at a
      standstill: until the next command the velocity is 0, whatever was commanded before, and no set-point
      is armed. */
  lemma FallbackStandsStill(m: ProfileMode, img: Image, fb: Feedback, next: Option<int>)
    ensures var out := ProfileStep(m, img, fb).mode;
            && (ProfileFault(out) == ModeNotAdopted <==>
                  !Echoed(m.intent, fb.echo) && m.echoWait + 1 == MODE_ECHO_CYCLES)
            && (ProfileFault(out) == ModeNotAdopted ==>
                  && fb.echo == Some(out.intent)
                  && ProfileCommand(out, next).targetVelocity == 0 && !ProfileCommand(out, next).newSetpoint)
  {
  }

  /** A stop the mode check asks for is passed on and never taken back; nothing else asks for one. */
  lemma StopIsPassedOn(cfg: Config, c: Ctl, i: CycleIn)
    requires cfg.Valid() && !i.stopping
    ensures var s := Entered(cfg, c, i);
            Cycle(cfg, c, i).stopRequested <==>
              || c.stopRequested
              || (FateOf(s, i) == Runs && s.motion.Profile?
                  && ProfileStep(s.motion.profile, s.image, SeenBy(cfg, s, i)).stopRequested)
  {
    var s := Entered(cfg, c, i);
    CycleInSteps(cfg, c, i);
    RoutingAsksNothing(cfg, c, i);
    StepAsks(cfg, s, i);
  }

  lemma RoutingAsksNothing(cfg: Config, c: Ctl, i: CycleIn)
    ensures Entered(cfg, c, i).stopRequested == c.stopRequested
  {
    var s := RouteStops(cfg, c.(ops := []), i.batch);
    StopsAskNothing(cfg, c.(ops := []), i.batch);
    RestAsksNothing(cfg, RouteTarget(cfg, s, i.batch, i.actual), i.batch);
  }

  lemma StopsAskNothing(cfg: Config, c: Ctl, b: Batch)
    ensures RouteStops(cfg, c, b).stopRequested == c.stopRequested
  {
  }

  lemma RestAsksNothing(cfg: Config, c: Ctl, b: Batch)
    ensures RouteRest(cfg, c, b).stopRequested == c.stopRequested
  {
  }

  lemma StepAsks(cfg: Config, s: Ctl, i: CycleIn)
    requires cfg.Valid() && !i.stopping
    ensures StepLifecycle(cfg, s, i).stopRequested <==>
              || s.stopRequested
              || (FateOf(s, i) == Runs && s.motion.Profile?
                  && ProfileStep(s.motion.profile, s.image, SeenBy(cfg, s, i)).stopRequested)
  {
    match s.life
    case Homing => HomingAsksNothing(cfg, s, i);
    case Operational => OperationalAsks(cfg, s, i);
    case Enabling => EnablingAsksNothing(cfg, s, i);
    case _ =>
  }

  lemma EnablingAsksNothing(cfg: Config, s: Ctl, i: CycleIn)
    ensures StepEnabling(cfg, s, i).stopRequested == s.stopRequested
  {
  }

  lemma OperationalAsks(cfg: Config, s: Ctl, i: CycleIn)
    requires s.life == Operational && !i.stopping
    ensures StepOperational(cfg, s, i).stopRequested <==>
              || s.stopRequested
              || (FateOf(s, i) == Runs && s.motion.Profile?
                  && ProfileStep(s.motion.profile, s.image, SeenBy(cfg, s, i)).stopRequested)
  {
    if FateOf(s, i) == Runs {
      assert StepOperational(cfg, s, i) == StepMotion(cfg, s, i);
    }
  }

  lemma HomingAsksNothing(cfg: Config, s: Ctl, i: CycleIn)
    ensures StepHoming(cfg, s, i).stopRequested == s.stopRequested
  {
    FinishAsksNothing(cfg, s, i, DriveFaulted);
    FinishAsksNothing(cfg, s, i, Cancelled);
    ProcedureAsksNothing(if cfg.modeMapped then s.(image := s.image.(mode := HOMING_MODE)) else s, i);
  }

  lemma FinishAsksNothing(cfg: Config, s: Ctl, i: CycleIn, fail: HomingFail)
    ensures FinishHoming(s, fail).stopRequested == s.stopRequested
    ensures EnterResetting(cfg, FinishHoming(s, fail), i).stopRequested == s.stopRequested
  {
  }

  lemma ProcedureAsksNothing(s: Ctl, i: CycleIn)
    ensures RunProcedure(s, i).stopRequested == s.stopRequested
  {
  }

  /** In the stopping window a ramping drive's velocity is zeroed, and every cycle tells the Runner whether the drive
      is off. */
  lemma StoppingTells(cfg: Config, c: Ctl, i: CycleIn)
    requires cfg.Valid() && i.stopping
    ensures var r := Cycle(cfg, c, i);
            && (r.stopAtRest <==> i.status.switchOnDisabled)
            && (c.motion.Profile? ==>
                  r.image.targetVelocity == (if cfg.quickStopDecel > 0 then 0 else c.image.targetVelocity)
                  && r.image.target == c.image.target && r.image.mode == c.image.mode)
  {
  }

  // --- a commanded velocity over a run -----------------------------------------------------------

  /** Nothing in the batch touches the velocity. */
  predicate LeavesVelocity(i: CycleIn) {
    i.batch.setTarget.None? && i.batch.setVelocity.None? && !(i.batch.halt && i.batch.haltSupersedes)
  }

  /** Streaming v, in the mode the drive was checked to be in. */
  predicate AtVelocity(c: Ctl, v: int) {
    && c.motion.Profile? && c.motion.profile.intent == PROFILE_VELOCITY && c.motion.profile.velocity == v
    && !c.motion.profile.halted && !c.motion.profile.sequencer.echo.mismatch
  }

  /** An undisturbed cycle of an enabled drive that echoes the velocity mode. */
  predicate Follows(c: Ctl, i: CycleIn) {
    c.life == Operational && FateOf(c, i) == Runs && i.status.enabled && Echoed(PROFILE_VELOCITY, i.echo)
  }

  /** The velocity is on the wire, with its mode, Halt released, to an enabled drive. */
  predicate OnWire(c: Ctl, v: int) {
    && c.image.targetVelocity == v && c.image.mode == PROFILE_VELOCITY
    && !c.image.cw.halt && c.image.cw.command == ENABLE_OPERATION.command
  }

  lemma NothingElseRouted(cfg: Config, c: Ctl, i: CycleIn)
    requires !i.stopping && LeavesVelocity(i)
    ensures Entered(cfg, c, i).motion == c.motion
  {
  }

  lemma VelocityRouted(cfg: Config, c: Ctl, i: CycleIn, v: int)
    requires !i.stopping && i.batch.setVelocity == Some(v) && c.motion.Profile?
    requires !c.motion.profile.sequencer.echo.mismatch
    ensures AtVelocity(Entered(cfg, c, i), v)
  {
    EnteredUntouched(cfg, c, i);
    var b := RouteStops(cfg, c.(ops := []), i.batch);
    RestUntouched(cfg, RouteTarget(cfg, b, i.batch, i.actual), i.batch);
  }

  lemma RunningKeeps(cfg: Config, c: Ctl, i: CycleIn, v: int)
    requires cfg.Valid() && Follows(c, i) && AtVelocity(Entered(cfg, c, i), v)
    ensures AtVelocity(Cycle(cfg, c, i), v) && OnWire(Cycle(cfg, c, i), v)
  {
    var s := Entered(cfg, c, i);
    CycleInSteps(cfg, c, i);
    EnteredUntouched(cfg, c, i);
    CommandIsOnWire(cfg, c, i);
    RunsTheMode(cfg, s, i);
  }

  lemma NextStreams(cfg: Config, cs: seq<Ctl>, ins: seq<CycleIn>, k: nat, v: int)
    requires cfg.Valid() && IsRun(cfg, cs, ins) && k < |ins| && Follows(cs[k], ins[k])
    requires AtVelocity(Entered(cfg, cs[k], ins[k]), v)
    ensures AtVelocity(cs[k + 1], v) && OnWire(cs[k + 1], v)
  {
    assert CycleNo(k);
    RunningKeeps(cfg, cs[k], ins[k], v);
  }

  /** A velocity commanded in cycle k is what 0x60FF carries in that and every later operating cycle that echoes
      the velocity mode, until a command changes it. */
  lemma {:induction false} VelocityIsStreamed(cfg: Config, cs: seq<Ctl>, ins: seq<CycleIn>, k: nat, n: nat, v: int)
    requires cfg.Valid() && IsRun(cfg, cs, ins) && k + n < |ins|
    requires cs[k].motion.Profile? && !cs[k].motion.profile.sequencer.echo.mismatch
    requires ins[k].batch.setVelocity == Some(v)
    requires forall j :: k <= j <= k + n ==> Follows(cs[j], ins[j])
    requires forall j :: k < j <= k + n ==> LeavesVelocity(ins[j])
    ensures AtVelocity(cs[k + n + 1], v) && OnWire(cs[k + n + 1], v)
  {
    if n == 0 {
      VelocityRouted(cfg, cs[k], ins[k], v);
      NextStreams(cfg, cs, ins, k, v);
    } else {
      VelocityIsStreamed(cfg, cs, ins, k, n - 1, v);
      StreamsOn(cfg, cs, ins, k + n, v);
    }
  }

  lemma StreamsOn(cfg: Config, cs: seq<Ctl>, ins: seq<CycleIn>, k: nat, v: int)
    requires cfg.Valid() && IsRun(cfg, cs, ins) && k < |ins| && Follows(cs[k], ins[k])
    requires AtVelocity(cs[k], v) && LeavesVelocity(ins[k])
    ensures AtVelocity(cs[k + 1], v) && OnWire(cs[k + 1], v)
  {
    NothingElseRouted(cfg, cs[k], ins[k]);
    NextStreams(cfg, cs, ins, k, v);
  }
}
