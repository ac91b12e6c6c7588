/** The servo controller as an object: each method changes its state exactly as the cycle specification says. */
module ServoControllers {
  import opened Cia402
  import opened Commands
  import opened Sequencer
  import opened MotionMode
  import opened Published
  import opened Controller
  import opened SelectedModes

  /** The window of recent actual positions, overwritten in place. */
  class PositionRing {
    const values: array<int>
    var index: nat
    var filled: nat

    /** The window's content, kept in step with the array. */
    ghost var seen: seq<int>

    ghost predicate Valid()
      reads this, values
    {
      filled <= values.Length && (values.Length > 0 ==> index < values.Length) && seen == values[..]
    }

    ghost function Value(atRest: bool): Ring
      requires seen == [] || index < |seen|
      reads this
    {
      RingValue(seen, index, filled, atRest)
    }

    constructor (window: nat)
      ensures Valid() && fresh(values) && Value(false) == RingValue(seq(window, _ => 0), 0, 0, false)
    {
      values := new int[window](_ => 0);
      index, filled := 0, 0;
      seen := seq(window, _ => 0);
      new;
      assert values[..] == seq(window, _ => 0);
    }

    /** Lowest and highest position in the window. */
    method Range() returns (low: int, high: int)
      requires values.Length > 0
      ensures low in values[..] && high in values[..]
      ensures forall v :: v in values[..] ==> low <= v <= high
    {
      low, high := values[0], values[0];
      for k := 0 to values.Length
        invariant low in values[..] && high in values[..]
        invariant forall j :: 0 <= j < k ==> low <= values[j] <= high
      {
        low := if values[k] < low then values[k] else low;
        high := if values[k] > high then values[k] else high;
      }
    }

    /** Push the actual; stable once the window was full and its range is within tolerance. */
    method PositionStable(actual: int, tolerance: int) returns (stable: bool)
      requires Valid()
      modifies this, values
      ensures Valid() && forall was :: Value(stable) == PushActual(old(Value(was)), tolerance, actual)
    {
      if values.Length == 0 {
        return false;
      }
      values[index] := actual;
      seen := seen[index := actual];
      assert values[..] == seen;
      index := (index + 1) % values.Length;
      if filled < values.Length {
        filled := filled + 1;
        return false;
      }
      var low, high := Range();
      stable := high - low <= tolerance;
      RangeIsWithin(values[..], low, high, tolerance);
    }
  }

  lemma RangeIsWithin(values: seq<int>, low: int, high: int, tolerance: int)
    requires low in values && high in values && forall v :: v in values ==> low <= v <= high
    ensures high - low <= tolerance <==> Within(values, tolerance)
  {
    var a :| 0 <= a < |values| && values[a] == high;
    var b :| 0 <= b < |values| && values[b] == low;
    if Within(values, tolerance) {
      assert values[a] - values[b] <= tolerance;
    }
    if high - low <= tolerance {
      forall j, k | 0 <= j < |values| && 0 <= k < |values| ensures values[j] - values[k] <= tolerance {
        assert values[j] in values && values[k] in values;
      }
    }
  }

  class ServoController {
    const cfg: Config
    const ring: PositionRing
    const mode: SelectedMode
    var life: Lifecycle
    var timers: Timers
    var atoms: Atoms
    var home: HomeRef
    var image: Image
    var atRest: bool
    var stopAtRest: bool
    var stopRequested: bool
    /** The wake counter parked callers sleep on. */
    var wake: nat
    /** Why the last abort or refusal happened. */
    var latched: CtlError
    /** This cycle's publications, in order. */
    ghost var ops: seq<RtOp>

    ghost predicate Valid()
      reads ring, ring.values, Modes()
    {
      cfg.Valid() && ring.Valid() && mode.Valid(cfg)
    }

    /** The mode's objects. */
    ghost function Modes(): set<object> { mode.Footprint() }

    ghost function State(): Ctl
      requires ring.seen == [] || ring.index < |ring.seen|
      reads this, ring, mode
    {
      Ctl(life, timers, mode.value, atoms, ops, wake, latched, home, ring.Value(atRest), image, stopAtRest,
          stopRequested)
    }

    constructor (cfg: Config, isProfile: bool, window: nat)
      requires cfg.Valid()
      ensures Valid() && fresh(ring) && fresh(ring.values) && fresh(Modes()) && this.cfg == cfg
      ensures Valid() && State() == Initial(mode.value, window) && (mode.value.Profile? <==> isProfile)
    {
      this.cfg := cfg;
      ring := new PositionRing(window);
      mode := new SelectedMode(cfg, isProfile);
      life, timers := Init, FRESH_TIMERS;
      atoms, home, ops := FRESH_ATOMS, HomeRef(false, 0, 0, NoFail, 0), [];
      image := Image(DISABLE_VOLTAGE, 0, 0, 0, 0);
      atRest, stopAtRest, stopRequested, wake, latched := false, false, false, 0, NoError;
    }

    // --- publications ---------------------------------------------------------------------------

    method AbortActiveMove(why: CtlError)
      requires Valid()
      modifies this`atoms, this`ops, this`wake, this`latched
      ensures State() == Abort(old(State()), why)
    {
      latched := why;
      ops := ops + [OpAbort];
      var g := atoms.active;
      if g != 0 && atoms.completed != g {
        atoms := atoms.(failed := g);
        wake := wake + 1;
      }
    }

    method PublishHomingResult(fail: HomingFail)
      requires Valid()
      modifies this`atoms, this`ops, this`wake, this`home
      ensures State() == PublishHoming(old(State()), fail)
    {
      home := home.(fail := fail, verdicts := home.verdicts + 1);
      ops := ops + [OpVerdict(fail == NoFail)];
      atoms := atoms.(homing := if fail == NoFail then Attained else Failed);
      wake := wake + 1;
    }

    method FinishHomingRun(fail: HomingFail)
      requires Valid()
      modifies this`atoms, this`ops, this`wake, this`home, Modes(), this`life, this`timers
      ensures Valid() && State() == FinishHoming(old(State()), fail)
    {
      PublishHomingResult(fail);
      timers := timers.(homingCycles := 0, homingEchoWait := 0, modeEchoWait := 0);
      DropTo(Enabling);
    }

    method BeginResetting(i: CycleIn) returns (cw: ControlWord)
      requires Valid()
      modifies this`life, this`timers, Modes()
      ensures Valid() && Written(State(), cw) == EnterResetting(cfg, old(State()), i)
    {
      life := Resetting;
      timers := timers.(resetCycles := 0, clearStreak := 0);
      mode.Reset(cfg);
      if cfg.estop != 0 && i.faultCode == cfg.estop {
        return DISABLE_VOLTAGE;
      }
      cw := FAULT_RESET;
    }

    // --- command routing -------------------------------------------------------------------------

    method HaltMode()
      requires Valid()
      modifies Modes()
      ensures Valid() && State() == old(State()).(motion := ModeHalt(cfg, old(mode.value)))
    {
      mode.Halt(cfg);
    }

    method RouteStopCommands(b: Batch)
      requires Valid()
      modifies this`atoms, this`ops, this`wake, this`latched, Modes()
      ensures Valid() && State() == RouteStops(cfg, old(State()), b)
    {
      if b.halt {
        AbortActiveMove(MotorStopped);
        if b.haltSupersedes {
          HaltMode();
        }
      }
      if b.disable {
        AbortActiveMove(MotorDisabled);
      }
    }

    method AdoptGeneration(g: nat)
      requires Valid()
      modifies this`atoms, this`ops, this`wake, this`latched
      ensures State() == Emit(old(State()).(latched := NoError), OpAdopt(g))
    {
      latched := NoError;
      ops := ops + [OpAdopt(g)];
      atoms := atoms.(active := g);
    }

    method Retarget(counts: int, velocity: nat)
      requires Valid()
      modifies Modes()
      ensures Valid() && State() == old(State()).(motion := ModeGoTo(cfg, old(mode.value), counts, velocity))
    {
      mode.GoTo(cfg, counts, velocity);
    }

    method RouteSetTarget(b: Batch, actual: int)
      requires Valid()
      modifies this`atoms, this`ops, this`wake, this`latched, Modes()
      ensures Valid() && State() == RouteTarget(cfg, old(State()), b, actual)
    {
      if b.setTarget.Some? {
        var t := b.setTarget.value;
        if t.generation != atoms.active {
          Retarget(if t.relative then RelativeTarget(actual, t.counts) else t.counts, t.profileVelocity);
          AdoptGeneration(t.generation);
        }
      }
    }

    method RunAt(velocity: int)
      requires Valid()
      modifies Modes()
      ensures Valid() && State() == old(State()).(motion := ModeSetVelocity(cfg, old(mode.value), velocity))
    {
      mode.RunAt(cfg, velocity);
    }

    method RouteOtherCommands(b: Batch)
      requires Valid()
      modifies this`atoms, this`ops, this`wake, Modes(), this`home
      ensures Valid() && State() == RouteRest(cfg, old(State()), b)
    {
      if b.setVelocity.Some? {
        RunAt(b.setVelocity.value);
      }
      if b.startHoming.Some? && life != Operational {
        PublishHomingResult(NotOperational);
      }
    }

    // --- the lifecycle states --------------------------------------------------------------------

    method RunInit(i: CycleIn) returns (cw: ControlWord)
      requires Valid()
      modifies this`life, this`timers, Modes()
      ensures Valid() && Written(State(), cw) == StepInit(cfg, old(State()), i)
    {
      if i.status.state == Fault {
        cw := BeginResetting(i);
        return;
      }
      life := Enabling;
      timers := timers.(modeEchoWait := 0);
      cw := DISABLE_VOLTAGE;
    }

    method RunEnabling(i: CycleIn) returns (cw: ControlWord)
      requires Valid()
      modifies this`life, this`timers, Modes(), this`image, this`latched
      ensures Valid() && Written(State(), cw) == StepEnabling(cfg, old(State()), i)
    {
      if i.status.state == Fault {
        cw := BeginResetting(i);
      } else {
        cw := Energize(i);
      }
    }

    method WriteMode(wanted: int)
      requires Valid()
      modifies this`image
      ensures State() == old(State()).(image := if cfg.modeMapped then old(image).(mode := wanted) else old(image))
    {
      if cfg.modeMapped {
        image := image.(mode := wanted);
      }
    }

    /** Hold at SwitchedOn; a drive that never echoes the mode is reported once. */
    method WaitForEcho(i: CycleIn) returns (cw: ControlWord)
      requires Valid()
      modifies this`timers, this`latched
      ensures Written(State(), cw) == HoldForEcho(old(State()), i)
    {
      timers := timers.(modeEchoWait := timers.modeEchoWait + 1);
      if timers.modeEchoWait == MODE_ECHO_CYCLES {
        latched := ModeMismatch;
      }
      cw := Ladder(i.status.state, SwitchedOn);
    }

    method EndEchoWait()
      requires Valid()
      modifies this`timers, this`latched
      ensures State() == AcceptEcho(old(State()))
    {
      timers := timers.(modeEchoWait := 0);
      if latched == ModeMismatch {
        latched := NoError;
      }
    }

    /** The mode-echo gate and the ladder. */
    method Energize(i: CycleIn) returns (cw: ControlWord)
      requires Valid() && i.status.state != Fault
      modifies this`life, this`timers, this`image, this`latched
      ensures Written(State(), cw) == StepEnabling(cfg, old(State()), i)
    {
      var want := mode.Commanded(cfg);
      WriteMode(want);
      cw := PassEchoGate(i, i.echo.None? || i.echo.value == want);
    }

    method PassEchoGate(i: CycleIn, echoed: bool) returns (cw: ControlWord)
      requires Valid()
      modifies this`life, this`timers, this`latched
      ensures Written(State(), cw) == PassGate(old(State()), i, echoed)
    {
      if !echoed && (i.status.state == SwitchedOn || i.status.state == OperationEnabled) {
        cw := WaitForEcho(i);
      } else {
        if echoed {
          EndEchoWait();
        }
        cw := Climb(i);
      }
    }

    /** One rung of the enable ladder. */
    method Climb(i: CycleIn) returns (cw: ControlWord)
      requires Valid()
      modifies this`life
      ensures Written(State(), cw) == ClimbOn(old(State()), i)
    {
      if i.status.state == OperationEnabled {
        life := Operational;
      }
      cw := Ladder(i.status.state, OperationEnabled);
    }

    /** What the mode is shown this cycle. */
    method ReadFeedback(i: CycleIn) returns (fb: Feedback)
      requires Valid()
      ensures fb == SeenBy(cfg, State(), i)
    {
      var gap := i.actual - mode.Target(cfg);
      fb := Feedback(i.status, i.actual, i.echo, atRest, -cfg.tolerance <= gap <= cfg.tolerance, cfg.bitUsable);
    }

    /** The selected mode writes its command objects; a mode fault fails the active move. */
    method RunMotion(i: CycleIn)
      requires Valid()
      modifies Modes(), this`image, this`stopRequested, this`atoms, this`ops, this`wake, this`latched
      ensures Valid() && State() == StepMotion(cfg, old(State()), i)
    {
      AdvanceMode(i);
      var f := mode.Fault(cfg);
      if f != NoFault {
        AbortActiveMove(if f == ModeNotAdopted then ModeMismatch else HandshakeTimedOut);
      }
    }

    method AdvanceMode(i: CycleIn)
      requires Valid()
      modifies Modes(), this`image, this`stopRequested
      ensures Valid() && State() == RunMode(cfg, old(State()), i)
    {
      var fb := ReadFeedback(i);
      var stop;
      image, stop := mode.Advance(cfg, image, fb);
      stopRequested := stopRequested || stop;
    }

    method RunHoming(i: CycleIn) returns (cw: ControlWord)
      requires Valid()
      modifies this`atoms, this`ops, this`wake, this`home, Modes(), this`life, this`timers, this`image
      ensures Valid() && Written(State(), cw) == StepHoming(cfg, old(State()), i)
    {
      if i.status.state == Fault || i.busFault {
        FinishHomingRun(DriveFaulted);
        cw := BeginResetting(i);
      } else if i.batch.disable || i.batch.halt || i.batch.quickStop {
        CancelHoming(i.batch.disable);
        cw := DISABLE_VOLTAGE;
      } else {
        WriteMode(HOMING_MODE);
        cw := RunHomingProcedure(i);
      }
    }

    /** The operator's stop wins over the run. */
    method CancelHoming(disable: bool)
      requires Valid()
      modifies this`atoms, this`ops, this`wake, this`home, Modes(), this`life, this`timers
      ensures Valid()
      ensures var f := FinishHoming(old(State()), Cancelled); State() == if disable then f.(life := Disabled) else f
    {
      FinishHomingRun(Cancelled);
      if disable {
        life := Disabled;
      }
    }

    method RunHomingProcedure(i: CycleIn) returns (cw: ControlWord)
      requires Valid()
      modifies this`atoms, this`ops, this`wake, this`home, Modes(), this`life, this`timers
      ensures Valid() && Written(State(), cw) == RunProcedure(old(State()), i)
    {
      var echoed := i.echo.None? || i.echo.value == HOMING_MODE;
      if !echoed {
        timers := timers.(homingEchoWait := timers.homingEchoWait + 1);
        if timers.homingEchoWait >= MODE_ECHO_CYCLES {
          FinishHomingRun(ModeNotFollowed);
        }
        return ENABLE_OPERATION;
      }
      if i.status.homingError {
        FinishHomingRun(DriveError);
        return ENABLE_OPERATION.(halt := true);
      }
      cw := AwaitHome(i);
    }

    /** The drive runs the procedure: attained, out of time, or still going. */
    method AwaitHome(i: CycleIn) returns (cw: ControlWord)
      requires Valid() && Echoed(HOMING_MODE, i.echo) && !i.status.homingError
      modifies this`atoms, this`ops, this`wake, this`home, Modes(), this`life, this`timers
      ensures Valid() && Written(State(), cw) == RunProcedure(old(State()), i)
    {
      if i.status.ack {
        home := home.(zeroOffset := 0, counts := i.actual, homed := true);
        FinishHomingRun(NoFail);
        return ENABLE_OPERATION;
      }
      timers := timers.(homingCycles := timers.homingCycles + 1);
      if timers.homingCycles >= timers.homingTimeout {
        FinishHomingRun(TimedOut);
        return ENABLE_OPERATION.(halt := true);
      }
      cw := ENABLE_OPERATION.(newSetpoint := true);
    }

    method EdgeIsDue(i: CycleIn) returns (edge: bool)
      requires Valid()
      ensures edge <==> EdgeDue(cfg, timers.resetCycles, i)
    {
      var estop := cfg.estop != 0 && i.faultCode == cfg.estop;
      BoundaryIsModulo(timers.resetCycles, cfg.window);
      edge := i.status.state == Fault && !estop && timers.resetCycles % cfg.window == 0;
    }

    method RunResetting(i: CycleIn) returns (cw: ControlWord)
      requires Valid()
      modifies this`life, this`timers
      ensures Written(State(), cw) == StepResetting(cfg, old(State()), i)
    {
      if i.batch.disable {
        life := Disabled;
        return DISABLE_VOLTAGE;
      }
      timers := timers.(clearStreak := if i.status.state != Fault then timers.clearStreak + 1 else 0);
      if timers.clearStreak >= cfg.confirm {
        life := Enabling;
        timers := timers.(modeEchoWait := 0);
        return Ladder(i.status.state, OperationEnabled);
      }
      timers := timers.(resetCycles := timers.resetCycles + 1);
      if i.batch.faultReset {
        timers := timers.(resetCycles := 0);
        return FAULT_RESET;
      }
      var edge := EdgeIsDue(i);
      cw := if edge then FAULT_RESET else DISABLE_VOLTAGE;
    }

    method RunDisabled(i: CycleIn) returns (cw: ControlWord)
      requires Valid()
      modifies this`life, this`timers
      ensures Written(State(), cw) == StepDisabled(old(State()), i)
    {
      if i.batch.enable {
        life := Enabling;
        timers := timers.(modeEchoWait := 0);
      }
      cw := DISABLE_VOLTAGE;
    }

    /** A fault, a disable or a homing request leaves Operational. */
    method LeaveOperational(i: CycleIn) returns (cw: ControlWord)
      requires Valid() && (i.status.state == Fault || i.busFault || i.batch.disable || i.batch.startHoming.Some?)
      modifies this`life, this`timers, Modes(), this`atoms, this`ops, this`wake, this`latched
      ensures Valid() && Written(State(), cw) == StepOperational(cfg, old(State()), i)
    {
      if i.status.state == Fault || i.busFault {
        AbortActiveMove(LeftOperational);
        cw := BeginResetting(i);
      } else if i.batch.disable {
        DropTo(Disabled);
        cw := DISABLE_VOLTAGE;
      } else {
        StartHomingRun(i.batch.startHoming.value.timeoutCycles);
        cw := ENABLE_OPERATION;
      }
    }

    /** Leaves for a state without motion. */
    method DropTo(next: Lifecycle)
      requires Valid()
      modifies this`life, Modes()
      ensures Valid() && State() == old(State()).(life := next, motion := ModeReset(old(mode.value)))
    {
      life := next;
      mode.Reset(cfg);
    }

    method StartHomingRun(timeoutCycles: nat)
      requires Valid()
      modifies this`life, this`timers, Modes()
      ensures Valid() && State() == old(State()).(
                life := Homing, motion := ModeReset(old(mode.value)),
                timers := old(timers).(homingCycles := 0, homingEchoWait := 0, homingTimeout := timeoutCycles))
    {
      life := Homing;
      timers := timers.(homingCycles := 0, homingEchoWait := 0);
      timers := timers.(homingTimeout := timeoutCycles);
      mode.Reset(cfg);
    }

    method RunOperational(i: CycleIn)
      requires Valid()
      modifies this, Modes()
      ensures Valid() && State() == StepOperational(cfg, old(State()), i)
    {
      if i.status.state == Fault || i.busFault || i.batch.disable || i.batch.startHoming.Some? {
        var cw := LeaveOperational(i);
        StoreControlWord(cw);
      } else if i.batch.quickStop {
        StoreControlWord(QUICK_STOP);
      } else {
        RunMotion(i);
      }
    }

    method StoreControlWord(cw: ControlWord)
      requires Valid()
      modifies this`image
      ensures State() == Written(old(State()), cw)
    {
      image := image.(cw := cw);
    }

    /** A state that does not run the mode. */
    method RunDeenergized(i: CycleIn) returns (cw: ControlWord)
      requires Valid() && life != Operational && life != Homing
      modifies this`life, this`timers, Modes(), this`image, this`latched
      ensures Valid() && Written(State(), cw) == StepLifecycle(cfg, old(State()), i)
    {
      match life {
        case Init => cw := RunInit(i);
        case Enabling => cw := RunEnabling(i);
        case Resetting => cw := RunResetting(i);
        case Disabled => cw := RunDisabled(i);
        case Operational =>
        case Homing =>
      }
    }

    /** One lifecycle step, with the controlword stored. */
    method RunLifecycle(i: CycleIn)
      requires Valid()
      modifies this, Modes()
      ensures Valid() && State() == StepLifecycle(cfg, old(State()), i)
    {
      if life == Operational {
        RunOperational(i);
      } else if life == Homing {
        var cw := RunHoming(i);
        StoreControlWord(cw);
      } else {
        var cw := RunDeenergized(i);
        StoreControlWord(cw);
      }
    }

    // --- around the lifecycle --------------------------------------------------------------------

    method TrackActual(actual: int)
      requires Valid()
      modifies Modes(), this`image
      ensures Valid() && State() == Track(old(State()), actual)
    {
      image := mode.Track(cfg, image, actual);
    }

    method PublishCompletion(i: CycleIn)
      requires Valid()
      modifies this`atoms, this`ops, this`wake
      ensures State() == (var r := old(State());
                          if i.status.enabled && MoveLive(r.atoms) && ModeReached(r.motion, SeenBy(cfg, r, i))
                          then Emit(r, OpComplete) else r)
    {
      var g := atoms.active;
      var live := g != 0 && atoms.completed != g && atoms.failed != g;
      var fb := ReadFeedback(i);
      if i.status.enabled && live && mode.IsTargetReached(cfg, fb) {
        ops := ops + [OpComplete];
        atoms := atoms.(completed := g);
        wake := wake + 1;
      }
    }

    /** Rest, from the window of recent positions. */
    method ObserveRest(i: CycleIn)
      requires Valid()
      modifies ring, ring.values, this`atRest
      ensures Valid() && State() == old(State()).(ring := PushActual(old(State().ring), cfg.tolerance, i.actual))
    {
      atRest := ring.PositionStable(i.actual, cfg.tolerance);
    }

    method PublishFaulted(i: CycleIn)
      requires Valid()
      modifies this`atoms, this`ops, this`wake
      ensures State() == Emit(old(State()), OpFaulted(i.busFault || i.status.fault))
    {
      var on := i.busFault || i.status.fault;
      ops := ops + [OpFaulted(on)];
      if on && !atoms.faulted {
        wake := wake + 1;
      }
      atoms := atoms.(faulted := on);
    }

    method Publish(i: CycleIn)
      requires Valid()
      modifies this, ring, ring.values
      ensures Valid() && State() == PublishState(cfg, old(State()), i)
    {
      ObserveRest(i);
      PublishCompletion(i);
      PublishFaulted(i);
    }

    method RunShutdown(i: CycleIn)
      requires Valid()
      modifies Modes(), this`image, this`stopAtRest
      ensures Valid() && State() == Shutdown(cfg, old(State()), i)
    {
      var fb := ReadFeedback(i);
      var stop;
      image, stop := mode.AdvanceShutdown(cfg, image, fb);
      stopAtRest := i.status.switchOnDisabled;
    }

    method RouteCommands(i: CycleIn)
      requires Valid()
      modifies this, Modes()
      ensures Valid() && State() == Route(cfg, old(State()), i)
    {
      RouteStopCommands(i.batch);
      RouteSetTarget(i.batch, i.actual);
      RouteOtherCommands(i.batch);
    }

    method RunSteady(i: CycleIn)
      requires Valid()
      modifies this, Modes()
      ensures Valid() && State() == SteadyStep(cfg, old(State()), i)
    {
      RouteCommands(i);
      RunLifecycle(i);
      if life != Operational {
        TrackActual(i.actual);
      }
    }

    /** One cycle. */
    method Step(i: CycleIn)
      requires Valid()
      modifies this, ring, ring.values, Modes()
      ensures Valid() && State() == Cycle(cfg, old(State()), i)
    {
      ops := [];
      if i.stopping {
        RunShutdown(i);
      } else {
        RunSteady(i);
      }
      Publish(i);
    }
  }
}
