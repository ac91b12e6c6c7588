/** How one CiA 402 mode family turns the motor API into process data: profile and cyclic position. */
module MotionMode {
  import opened Cia402
  import opened Sequencer
  import opened Trapezoid

  /** Cycles to wait for 0x6061 to echo a commanded 0x6060. */
  const MODE_ECHO_CYCLES := 200

  /** One cycle's inputs as the mode sees them. */
  datatype Feedback = Feedback(
    status: Status,
    actual: int,
    echo: Option<int>,
    atRest: bool,
    nearTarget: bool,
    bitUsable: bool)

  /** The wrapped sum a relative move targets. */
  function RelativeTarget(actual: int, delta: int): (r: int)
    ensures IsInt32(r) && (r - actual - delta) % 0x1_0000_0000 == 0
  {
    Wrap32(actual + delta)
  }

  // --- profile position --------------------------------------------------------

  datatype ProfileMode = ProfileMode(
    sequencer: SeqState,
    intent: int,
    target: int,
    profileVelocity: nat,
    velocity: int,
    halted: bool,
    pending: bool,
    echoWait: nat,
    notAdopted: bool)

  const PROFILE_RESET := ProfileMode(RESET_STATE, PROFILE_POSITION, 0, 0, 0, false, false, 0, false)

  datatype ProfileOut = ProfileOut(mode: ProfileMode, image: Image, stopRequested: bool)

  function ProfileGoTo(m: ProfileMode, target: int, velocity: nat): ProfileMode {
    m.(intent := PROFILE_POSITION, target := target, profileVelocity := velocity, pending := true, halted := false)
  }

  function ProfileSetVelocity(m: ProfileMode, velocity: int): ProfileMode {
    m.(intent := PROFILE_VELOCITY, velocity := velocity, halted := false)
  }

  predicate Echoed(intent: int, echo: Option<int>) { echo.None? || echo.value == intent }

  /** The command this cycle hands the sequencer; held at rest until the mode is echoed. */
  function ProfileCommand(m: ProfileMode, echo: Option<int>): SeqCommand {
    var echoed := Echoed(m.intent, echo);
    SeqCommand(m.intent, m.target, m.profileVelocity, if echoed then m.velocity else 0, true, m.halted,
               echoed && m.pending)
  }

  /** The mode's own state after the echo gate; the sequencer steps beside it. */
  function ProfileGate(m: ProfileMode, echo: Option<int>): ProfileMode {
    if Echoed(m.intent, echo) then m.(notAdopted := false, echoWait := 0, pending := false)
    else if m.echoWait + 1 == MODE_ECHO_CYCLES then
      m.(notAdopted := true, echoWait := m.echoWait + 1, intent := echo.value, velocity := 0, pending := false)
    else m.(notAdopted := false, echoWait := m.echoWait + 1)
  }

  function ProfileStep(m: ProfileMode, img: Image, fb: Feedback): ProfileOut {
    var out := Step(m.sequencer, img, SeqIn(fb.status, fb.echo, false), ProfileCommand(m, fb.echo));
    ProfileOut(ProfileGate(m, fb.echo).(sequencer := out.state), out.image, out.stopRequested)
  }

  /** Shutdown: the drive's quick stop when one is configured, else a disable-voltage coast. */
  function ProfileShutdown(m: ProfileMode, img: Image, fb: Feedback, quickStopDecel: nat): ProfileOut {
    if quickStopDecel > 0 then
      var out := Step(m.sequencer, img, SeqIn(fb.status, fb.echo, true),
                      SeqCommand(m.intent, 0, 0, 0, false, false, false));
      ProfileOut(m.(sequencer := out.state), out.image, out.stopRequested)
    else ProfileOut(m, img.(cw := DISABLE_VOLTAGE), false)
  }

  predicate ProfileReached(m: ProfileMode, fb: Feedback) {
    && m.intent == PROFILE_POSITION
    && m.sequencer.handshake.idle
    && if fb.bitUsable then fb.status.targetReached else fb.nearTarget && fb.atRest
  }

  /** A failure the mode detected this cycle. */
  datatype MotionFault = NoFault | SetpointNotAcknowledged | ModeNotAdopted

  function ProfileFault(m: ProfileMode): MotionFault {
    if m.notAdopted then ModeNotAdopted
    else if m.sequencer.handshake.timedOut then SetpointNotAcknowledged else NoFault
  }

  /** The mode itself streams a velocity and then returns to position only when the drive never echoed the
      velocity mode (it falls back, and reports it), or for a new set-point, which waits to be armed. */
  lemma VelocityEndsByFallback(m: ProfileMode, img: Image, fb: Feedback, target: int, velocity: nat)
    requires m.intent != PROFILE_POSITION
    ensures var out := ProfileStep(m, img, fb);
            out.mode.intent == PROFILE_POSITION ==> ProfileFault(out.mode) == ModeNotAdopted && !out.mode.pending
    ensures var n := ProfileGoTo(m, target, velocity);
            && n.intent == PROFILE_POSITION && n.pending
            && (Echoed(PROFILE_POSITION, fb.echo) ==> ProfileCommand(n, fb.echo).newSetpoint)
  {
  }

  class ProfilePositionMode {
    const quickStopDecel: nat
    const sequencer: Cia402Sequencer
    var intent: int
    var target: int
    var profileVelocity: nat
    var velocity: int
    var halted: bool
    var pending: bool
    var echoWait: nat
    var notAdopted: bool

    ghost function Value(): ProfileMode
      reads this, sequencer
    {
      ProfileMode(sequencer.State(), intent, target, profileVelocity, velocity, halted, pending, echoWait, notAdopted)
    }

    constructor (quickStopDecel: nat)
      ensures fresh(sequencer) && this.quickStopDecel == quickStopDecel
      ensures Value() == PROFILE_RESET
    {
      this.quickStopDecel := quickStopDecel;
      sequencer := new Cia402Sequencer();
      intent, target, profileVelocity, velocity := PROFILE_POSITION, 0, 0, 0;
      halted, pending, echoWait, notAdopted := false, false, 0, false;
    }

    method Reset()
      modifies this, sequencer
      ensures Value() == PROFILE_RESET
    {
      sequencer.Reset();
      intent, target, profileVelocity, velocity := PROFILE_POSITION, 0, 0, 0;
      halted, pending, echoWait, notAdopted := false, false, 0, false;
    }

    method Halt()
      modifies this
      ensures Value() == old(Value()).(halted := true)
    {
      halted := true;
    }

    function IsTargetReached(fb: Feedback): (r: bool)
      reads this, sequencer
      ensures r <==> ProfileReached(Value(), fb)
    {
      && intent == PROFILE_POSITION && sequencer.handshake.idle
      && if fb.bitUsable then fb.status.targetReached else fb.nearTarget && fb.atRest
    }

    function Fault(): (r: MotionFault)
      reads this, sequencer
      ensures r == ProfileFault(Value())
    {
      if notAdopted then ModeNotAdopted
      else if sequencer.handshake.timedOut then SetpointNotAcknowledged else NoFault
    }

    method GoTo(newTarget: int, newVelocity: nat)
      modifies this
      ensures Value() == ProfileGoTo(old(Value()), newTarget, newVelocity)
    {
      intent := PROFILE_POSITION;
      target, profileVelocity := newTarget, newVelocity;
      pending, halted := true, false;
    }

    method RunAt(newVelocity: int)
      modifies this
      ensures Value() == ProfileSetVelocity(old(Value()), newVelocity)
    {
      intent, velocity, halted := PROFILE_VELOCITY, newVelocity, false;
    }

    method Advance(img: Image, fb: Feedback) returns (out: Image, stopRequested: bool)
      modifies this, sequencer
      ensures ProfileOut(Value(), out, stopRequested) == ProfileStep(old(Value()), img, fb)
    {
      notAdopted := false;
      var cmd := SeqCommand(intent, target, profileVelocity, velocity, true, halted, false);
      if fb.echo.Some? && fb.echo.value != intent {
        echoWait := echoWait + 1;
        if echoWait == MODE_ECHO_CYCLES {
          notAdopted := true;
          intent := fb.echo.value;
          velocity, pending := 0, false;
        }
        cmd := cmd.(targetVelocity := 0);
      } else {
        echoWait := 0;
        cmd := cmd.(newSetpoint := pending);
        pending := false;
      }
      out, stopRequested := sequencer.Advance(img, SeqIn(fb.status, fb.echo, false), cmd);
    }

    method AdvanceShutdown(img: Image, fb: Feedback) returns (out: Image, stopRequested: bool)
      modifies this, sequencer
      ensures ProfileOut(Value(), out, stopRequested) == ProfileShutdown(old(Value()), img, fb, quickStopDecel)
    {
      if quickStopDecel > 0 {
        out, stopRequested := sequencer.Advance(img, SeqIn(fb.status, fb.echo, true),
                                                SeqCommand(intent, 0, 0, 0, false, false, false));
      } else {
        out, stopRequested := img.(cw := DISABLE_VOLTAGE), false;
      }
    }
  }

  // --- cyclic position -----------------------------------------------------------

  datatype CyclicMode = CyclicMode(generator: Generator, positioning: bool)

  /** dt: cycle period; accel: ramp acceleration; maxVelocity: the ceiling the shutdown ramp starts from. */
  datatype CyclicParams = CyclicParams(dt: real, accel: real, maxVelocity: real, profile: Profile)

  datatype CyclicOut = CyclicOut(mode: CyclicMode, image: Image)

  function CyclicReset(m: CyclicMode): CyclicMode { CyclicMode(Reseed(m.generator, 0), true) }

  function CyclicGoTo(m: CyclicMode, p: CyclicParams, target: int, velocity: nat): CyclicMode {
    if ValidLimit(velocity as real) && ValidLimit(p.accel) then
      CyclicMode(SetGoal(m.generator, target, velocity as real, p.accel), true)
    else m
  }

  function CyclicSetVelocity(m: CyclicMode, p: CyclicParams, velocity: int): CyclicMode {
    if ValidLimit(p.accel) then CyclicMode(SetVelocity(m.generator, velocity as real, p.accel), false) else m
  }

  function CyclicHalt(m: CyclicMode, p: CyclicParams): CyclicMode {
    m.(generator := Stop(m.generator, p.accel))
  }

  function CyclicStep(m: CyclicMode, p: CyclicParams, img: Image): CyclicOut {
    var g := StepGenerator(m.generator, p.profile, p.dt);
    CyclicOut(m.(generator := g), img.(target := WirePosition(g), cw := ENABLE_OPERATION))
  }

  /** Not enabled: the target follows the shaft. */
  function CyclicTrack(m: CyclicMode, img: Image, actual: int): CyclicOut {
    CyclicOut(m.(generator := Reseed(m.generator, actual)), img.(target := actual))
  }

  /** Shutdown: ramp to rest while energized, then disable voltage. */
  function CyclicShutdown(m: CyclicMode, p: CyclicParams, img: Image, status: Status, actual: int): CyclicOut {
    if !status.enabled || status.fault then
      CyclicOut(m.(generator := Reseed(m.generator, actual)), img.(target := actual, cw := DISABLE_VOLTAGE))
    else if m.generator.phase != Holding then
      var g := StepGenerator(Braked(m.generator, p), p.profile, p.dt);
      CyclicOut(m.(generator := g), img.(target := WirePosition(g), cw := ENABLE_OPERATION))
    else CyclicOut(m, img.(target := WirePosition(m.generator), cw := DISABLE_VOLTAGE))
  }

  /** The generator a shutdown cycle steps: told to stop unless it is a velocity run at zero speed. */
  function Braked(g: Generator, p: CyclicParams): Generator {
    if g.phase != VelocityRun || g.state.velocity != 0.0 then Stop(g, p.accel) else g
  }

  predicate CyclicReached(m: CyclicMode, fb: Feedback) {
    m.positioning && m.generator.phase == Holding && fb.nearTarget && fb.atRest
  }

  /** Shutdown window: the ramp from the velocity ceiling plus a margin of 20, capped at 60000 cycles. */
  function ShutdownCycles(p: CyclicParams): int
    requires p.dt > 0.0
  {
    var ramp := if p.accel > 0.0 then p.maxVelocity / p.accel else 0.0;
    var cycles := ramp / p.dt + 20.0;
    (if cycles < 60000.0 then cycles else 60000.0).Floor
  }

  class CyclicPositionMode {
    const params: CyclicParams
    const generator: TrapezoidGenerator
    var positioning: bool

    ghost predicate Valid() { generator.profile == params.profile }

    ghost function Value(): CyclicMode
      reads this, generator
    {
      CyclicMode(generator.Value(), positioning)
    }

    constructor (params: CyclicParams)
      ensures Valid() && fresh(generator) && this.params == params
      ensures Value() == CyclicMode(Generator(Kinematic(0.0, 0.0), 1.0, 1.0, 0.0, 0, Holding), true)
    {
      this.params := params;
      generator := new TrapezoidGenerator(params.profile);
      positioning := true;
    }

    method Reset()
      modifies this, generator
      ensures Value() == CyclicReset(old(Value()))
    {
      generator.ReseedTo(0);
      positioning := true;
    }

    method GoTo(target: int, velocity: nat)
      modifies this, generator
      ensures Value() == CyclicGoTo(old(Value()), params, target, velocity)
    {
      var accepted := generator.Retarget(target, velocity as real, params.accel);
      if accepted {
        positioning := true;
      }
    }

    method RunAt(velocity: int)
      modifies this, generator
      ensures Value() == CyclicSetVelocity(old(Value()), params, velocity)
    {
      var accepted := generator.RunAt(velocity as real, params.accel);
      if accepted {
        positioning := false;
      }
    }

    method Halt()
      modifies this, generator
      ensures Value() == CyclicHalt(old(Value()), params)
    {
      generator.RampToRest(params.accel);
    }

    function IsTargetReached(fb: Feedback): (r: bool)
      reads this, generator
      ensures r <==> CyclicReached(Value(), fb)
    {
      positioning && generator.phase == Holding && fb.nearTarget && fb.atRest
    }

    method Advance(img: Image) returns (out: Image)
      requires Valid()
      modifies generator
      ensures CyclicOut(Value(), out) == CyclicStep(old(Value()), params, img)
    {
      var wire := generator.Advance(params.dt);
      out := img.(target := wire, cw := ENABLE_OPERATION);
    }

    method Track(img: Image, actual: int) returns (out: Image)
      modifies generator
      ensures CyclicOut(Value(), out) == CyclicTrack(old(Value()), img, actual)
    {
      generator.ReseedTo(actual);
      out := img.(target := actual);
    }

    method AdvanceShutdown(img: Image, status: Status, actual: int) returns (out: Image)
      requires Valid()
      modifies generator
      ensures CyclicOut(Value(), out) == CyclicShutdown(old(Value()), params, img, status, actual)
    {
      if !status.enabled || status.fault {
        generator.ReseedTo(actual);
        out := img.(target := actual, cw := DISABLE_VOLTAGE);
      } else if generator.phase != Holding {
        if generator.phase != VelocityRun || generator.state.velocity != 0.0 {
          generator.RampToRest(params.accel);
        }
        var wire := generator.Advance(params.dt);
        out := img.(target := wire, cw := ENABLE_OPERATION);
      } else {
        out := img.(target := ToWire(generator.state.position), cw := DISABLE_VOLTAGE);
      }
    }
  }

  // --- the shutdown ramp of a cyclic drive -----------------------------------------

  /** Generator and controlword of one shutdown cycle on an enabled, unfaulted drive. */
  function BrakeCycle(g: Generator, p: CyclicParams): (Generator, ControlWord) {
    if g.phase == Holding then (g, DISABLE_VOLTAGE)
    else (StepGenerator(Braked(g, p), p.profile, p.dt), ENABLE_OPERATION)
  }

  lemma BrakeCycleIsShutdown(m: CyclicMode, p: CyclicParams, img: Image, status: Status, actual: int)
    requires status.enabled && !status.fault
    ensures var out := CyclicShutdown(m, p, img, status, actual);
            (out.mode.generator, out.image.cw) == BrakeCycle(m.generator, p)
  {
  }

  function Brake(g: Generator, p: CyclicParams, n: nat): Generator
    decreases n
  {
    if n == 0 then g else Brake(BrakeCycle(g, p).0, p, n - 1)
  }

  /** Disable-voltage reaches an enabled, unfaulted drive only at velocity zero. */
  lemma TorqueNeverCutAtSpeed(m: CyclicMode, p: CyclicParams, img: Image, status: Status, actual: int)
    requires status.enabled && !status.fault && RestsWhenHolding(m.generator)
    ensures CyclicShutdown(m, p, img, status, actual).image.cw == DISABLE_VOLTAGE
            ==> m.generator.state.velocity == 0.0
    ensures RestsWhenHolding(CyclicShutdown(m, p, img, status, actual).mode.generator)
  {
    HoldingIsRest(m.generator, p.profile, p.dt, actual, 0.0, p.accel);
    HoldingIsRest(Braked(m.generator, p), p.profile, p.dt, actual, 0.0, p.accel);
  }

  /** One ramp step of a velocity shed in n steps leaves one shed in n - 1 steps. */
  lemma ShedStep(k: Kinematic, accel: real, dt: real, n: nat)
    requires accel * dt > 0.0 && n >= 1 && ShedIn(Abs(k.velocity), accel * dt, n)
    ensures var j := RampStep(k, 0.0, accel, dt);
            ShedIn(Abs(j.velocity), accel * dt, n - 1) && (j.velocity == 0.0 <==> n == 1)
  {
    var d := accel * dt;
    var j := RampStep(k, 0.0, accel, dt);
    assert j.velocity == k.velocity + Clamp(0.0 - k.velocity, d);
    if n > 2 {
      assert Abs(k.velocity) - d > d;
    }
  }

  /** A moving generator under shutdown follows the stop ramp, and holds exactly when it ends. */
  lemma {:induction false} BrakeFollowsRamp(g: Generator, p: CyclicParams, n: nat, i: nat)
    requires p.accel > 0.0 && p.dt > 0.0 && g.phase != Holding && g.state.velocity != 0.0
    requires i <= n && ShedIn(Abs(g.state.velocity), p.accel * p.dt, n)
    ensures Brake(g, p, i).state == Ramp(g.state, p.accel, p.dt, i)
    ensures Brake(g, p, i).phase == Holding <==> i == n
    ensures i == n ==> Brake(g, p, i).state.velocity == 0.0
    decreases i
  {
    assert p.accel * p.dt > 0.0;
    if i > 0 {
      ShedStep(g.state, p.accel, p.dt, n);
      var h := BrakeCycle(g, p).0;
      assert h.state == RampStep(g.state, 0.0, p.accel, p.dt);
      if n == 1 {
        assert Brake(h, p, 0) == h && Ramp(h.state, p.accel, p.dt, 0) == h.state;
      } else {
        BrakeFollowsRamp(h, p, n - 1, i - 1);
      }
    }
  }

  /** Shutdown cycles until disable-voltage is returned: the ramp and one more, or at most three. */
  function CyclesToDisable(g: Generator, p: CyclicParams): nat
    requires p.accel > 0.0 && p.dt > 0.0
  {
    if g.phase == Holding then 1
    else if g.state.velocity != 0.0 then StopSteps(g.state.velocity, p.accel, p.dt) + 1
    else if g.phase == VelocityRun && g.vTarget != 0.0 then 3
    else 2
  }

  /** What every mode command and step keeps: holding means rest, a velocity run ramps at the mode's
      acceleration. */
  predicate Tuned(g: Generator, p: CyclicParams) {
    RestsWhenHolding(g) && (g.phase == VelocityRun ==> g.accel == p.accel)
  }

  lemma CommandsKeepTuned(m: CyclicMode, p: CyclicParams, target: int, velocity: nat, speed: int)
    requires p.accel > 0.0 && Tuned(m.generator, p)
    ensures Tuned(CyclicReset(m).generator, p)
    ensures Tuned(CyclicGoTo(m, p, target, velocity).generator, p)
    ensures Tuned(CyclicSetVelocity(m, p, speed).generator, p)
    ensures Tuned(CyclicHalt(m, p).generator, p)
  {
  }

  lemma StepsKeepTuned(m: CyclicMode, p: CyclicParams, img: Image, status: Status, actual: int)
    requires p.accel > 0.0 && Tuned(m.generator, p)
    ensures Tuned(CyclicStep(m, p, img).mode.generator, p)
    ensures Tuned(CyclicTrack(m, img, actual).mode.generator, p)
    ensures Tuned(CyclicShutdown(m, p, img, status, actual).mode.generator, p)
  {
    HoldingIsRest(m.generator, p.profile, p.dt, actual, 0.0, p.accel);
    HoldingIsRest(Braked(m.generator, p), p.profile, p.dt, actual, 0.0, p.accel);
  }

  /** Shutdown cycle n is the first to return disable-voltage, and the generator is then at rest. */
  ghost predicate DisablesFirstAt(g: Generator, p: CyclicParams, n: nat)
    requires n >= 1
  {
    && Brake(g, p, n - 1).phase == Holding
    && Brake(g, p, n - 1).state.velocity == 0.0
    && forall i: nat :: i < n - 1 ==> Brake(g, p, i).phase != Holding
  }

  /** Every shutdown ends at rest in a disable-voltage word, after exactly CyclesToDisable cycles.
      (A velocity run that has not moved yet takes one accelerating step first.) */
  lemma ShutdownEndsAtRest(g: Generator, p: CyclicParams)
    requires p.accel > 0.0 && p.dt > 0.0 && Tuned(g, p)
    ensures CyclesToDisable(g, p) >= 1 && DisablesFirstAt(g, p, CyclesToDisable(g, p))
  {
    if g.phase == Holding {
    } else if g.state.velocity != 0.0 {
      MovingStops(g, p);
    } else if g.phase == VelocityRun && g.vTarget != 0.0 {
      UnmovedRunStops(g, p);
    } else {
      var h := BrakeCycle(g, p).0;
      assert h.phase == Holding && h.state.velocity == 0.0;
      assert Brake(g, p, 1) == Brake(h, p, 0) == h && Brake(g, p, 0) == g;
    }
  }

  lemma MovingStops(g: Generator, p: CyclicParams)
    requires p.accel > 0.0 && p.dt > 0.0 && g.phase != Holding && g.state.velocity != 0.0
    ensures DisablesFirstAt(g, p, StopSteps(g.state.velocity, p.accel, p.dt) + 1)
  {
    StopStepsIsCeiling(g.state.velocity, p.accel, p.dt);
    MovingStopsIn(g, p, StopSteps(g.state.velocity, p.accel, p.dt));
  }

  lemma MovingStopsIn(g: Generator, p: CyclicParams, n: nat)
    requires p.accel > 0.0 && p.dt > 0.0 && g.phase != Holding && g.state.velocity != 0.0
    requires ShedIn(Abs(g.state.velocity), p.accel * p.dt, n)
    ensures DisablesFirstAt(g, p, n + 1)
  {
    BrakeFollowsRamp(g, p, n, n);
    forall i: nat | i < n ensures Brake(g, p, i).phase != Holding {
      BrakeFollowsRamp(g, p, n, i);
    }
  }

  lemma UnmovedRunStops(g: Generator, p: CyclicParams)
    requires p.accel > 0.0 && p.dt > 0.0 && g.accel == p.accel
    requires g.phase == VelocityRun && g.vTarget != 0.0 && g.state.velocity == 0.0
    ensures DisablesFirstAt(g, p, 3)
  {
    var d := p.accel * p.dt;
    assert d > 0.0;
    var h := BrakeCycle(g, p).0;
    assert h.state == RampStep(g.state, g.vTarget, p.accel, p.dt);
    assert h.phase == VelocityRun && 0.0 < Abs(h.state.velocity) <= d;
    assert ShedIn(Abs(h.state.velocity), d, 1);
    ShedStep(h.state, p.accel, p.dt, 1);
    var r := BrakeCycle(h, p).0;
    assert r.phase == Holding && r.state.velocity == 0.0;
    assert Brake(g, p, 0) == g && Brake(h, p, 0) == h && Brake(r, p, 0) == r;
    assert Brake(g, p, 1) == h && Brake(h, p, 1) == r && Brake(g, p, 2) == r;
  }

  /** The window outlasts the ramp: from within the velocity ceiling, and with the cap inactive, the
      stop ramp ends at least 19 cycles before the window does. */
  lemma WindowOutlastsRamp(v: real, p: CyclicParams)
    requires p.accel > 0.0 && p.dt > 0.0 && Abs(v) <= p.maxVelocity
    requires p.maxVelocity / p.accel / p.dt + 20.0 <= 60000.0
    ensures StopSteps(v, p.accel, p.dt) <= ShutdownCycles(p) - 19
  {
    var x := p.maxVelocity / p.accel / p.dt;
    DivideBack(p.maxVelocity, p.accel, p.dt);
    StopStepsAtMost(v, p.accel, p.dt, x);
    WindowIs(p, x);
    WholeSteps(StopSteps(v, p.accel, p.dt), x);
  }

  /** Hence a shutdown from within the ceiling disables voltage, at rest, inside the window. */
  lemma ShutdownFitsWindow(g: Generator, p: CyclicParams)
    requires p.accel > 0.0 && p.dt > 0.0 && Tuned(g, p)
    requires Abs(g.state.velocity) <= p.maxVelocity
    requires p.maxVelocity / p.accel / p.dt + 20.0 <= 60000.0
    ensures CyclesToDisable(g, p) <= ShutdownCycles(p) - 17
    ensures CyclesToDisable(g, p) >= 1 && DisablesFirstAt(g, p, CyclesToDisable(g, p))
  {
    WindowOutlastsRamp(g.state.velocity, p);
    ShutdownEndsAtRest(g, p);
  }

  lemma WindowIs(p: CyclicParams, x: real)
    requires p.accel > 0.0 && p.dt > 0.0 && x == p.maxVelocity / p.accel / p.dt && x + 20.0 <= 60000.0
    ensures ShutdownCycles(p) == (x + 20.0).Floor
  {
  }

  lemma WholeSteps(n: nat, x: real)
    requires n as real < x + 1.0
    ensures n <= (x + 20.0).Floor - 19
  {
  }

  lemma DivideBack(x: real, a: real, b: real)
    requires a > 0.0 && b > 0.0
    ensures x / a / b * (a * b) == x
  {
    var q := x / a / b;
    assert q * b == x / a;
    assert q * b * a == x;
    assert q * (a * b) == q * b * a;
  }
}
