/** When a cycle's word energizes the drive, and in which state it leaves the controller: exactly, for every
    cycle; and the climb out of Enabling as a closed loop with a standard drive. */
module Energizing {
  import opened Cia402
  import opened Commands
  import opened MotionMode
  import opened Trapezoid
  import opened Controller
  import opened CycleSteps

  // --- where a cycle ends ------------------------------------------------------------------------

  predicate Faulty(i: CycleIn) { i.status.state == Fault || i.busFault }

  /** The reset confirm streak is complete with this cycle. */
  predicate Confirmed(cfg: Config, s: Ctl, i: CycleIn) {
    (if i.status.state != Fault then s.timers.clearStreak + 1 else 0) >= cfg.confirm
  }

  /** A disable command is heeded by these states alone; Init and Enabling drop it. */
  predicate HeedsDisable(s: Ctl, i: CycleIn) {
    || (s.life in {Operational, Homing} && !Faulty(i))
    || s.life == Resetting
    || (s.life == Disabled && !i.batch.enable)
  }

  lemma HomingEnds(cfg: Config, s: Ctl, i: CycleIn)
    requires s.life == Homing
    ensures var r := StepHoming(cfg, s, i);
            && (r.life == Disabled <==> i.batch.disable && !Faulty(i))
            && (r.life == Homing <==> !EndsHoming(s, i))
            && (r.life == Resetting <==> Faulty(i))
            && (r.life == Disabled ==> r.image.cw == DISABLE_VOLTAGE)
  {
    if !Faulty(i) && !i.batch.disable && !i.batch.halt && !i.batch.quickStop {
      ProcedureEnds(if cfg.modeMapped then s.(image := s.image.(mode := HOMING_MODE)) else s, i);
    }
  }

  lemma ProcedureEnds(s: Ctl, i: CycleIn)
    requires s.life == Homing
    ensures RunProcedure(s, i).life in {Homing, Enabling}
    ensures RunProcedure(s, i).life == Homing <==>
              if !Echoed(HOMING_MODE, i.echo) then s.timers.homingEchoWait + 1 < MODE_ECHO_CYCLES
              else !i.status.homingError && !i.status.ack && s.timers.homingCycles + 1 < s.timers.homingTimeout
  {
  }

  lemma StepEndsIn(cfg: Config, s: Ctl, i: CycleIn)
    requires cfg.Valid()
    ensures var r := StepLifecycle(cfg, s, i);
            && (r.life == Disabled <==>
                  (i.batch.disable && HeedsDisable(s, i)) || (s.life == Disabled && !i.batch.enable))
            && (r.life == Homing <==>
                  || (s.life == Operational && !Faulty(i) && !i.batch.disable && i.batch.startHoming.Some?)
                  || (s.life == Homing && !EndsHoming(s, i)))
            && (r.life == Resetting <==>
                  || (s.life in {Init, Enabling} && i.status.state == Fault)
                  || (s.life in {Operational, Homing} && Faulty(i))
                  || (s.life == Resetting && !i.batch.disable && !Confirmed(cfg, s, i)))
            && (r.life == Disabled ==> r.image.cw == DISABLE_VOLTAGE)
            && r.life != Init
  {
    match s.life
    case Homing => HomingEnds(cfg, s, i);
    case Operational => OperationalEnds(cfg, s, i);
    case _ =>
  }

  lemma OperationalEnds(cfg: Config, s: Ctl, i: CycleIn)
    requires s.life == Operational
    ensures var r := StepOperational(cfg, s, i);
            && (r.life == Resetting <==> Faulty(i))
            && (r.life == Disabled <==> !Faulty(i) && i.batch.disable)
            && (r.life == Homing <==> !Faulty(i) && !i.batch.disable && i.batch.startHoming.Some?)
            && r.life in {Operational, Resetting, Disabled, Homing}
            && (r.life == Disabled ==> r.image.cw == DISABLE_VOLTAGE)
  {
  }

  /** The state every steady cycle ends in. The commands routed before the step decide it only through the
      commanded mode. */
  lemma CycleEndsIn(cfg: Config, c: Ctl, i: CycleIn)
    requires cfg.Valid() && !i.stopping
    ensures var s, r := Entered(cfg, c, i), Cycle(cfg, c, i);
            && (r.life == Operational <==> !EndsOff(s, i))
            && (r.life == Disabled <==>
                  (i.batch.disable && HeedsDisable(c, i)) || (c.life == Disabled && !i.batch.enable))
            && (r.life == Homing <==>
                  || (c.life == Operational && !Faulty(i) && !i.batch.disable && i.batch.startHoming.Some?)
                  || (c.life == Homing && !EndsHoming(c, i)))
            && (r.life == Resetting <==>
                  || (c.life in {Init, Enabling} && i.status.state == Fault)
                  || (c.life in {Operational, Homing} && Faulty(i))
                  || (c.life == Resetting && !i.batch.disable && !Confirmed(cfg, c, i)))
            && r.life != Init
            && (r.life == Disabled ==> r.image.cw == DISABLE_VOLTAGE)
  {
    var s := Entered(cfg, c, i);
    CycleInSteps(cfg, c, i);
    EnteredUntouched(cfg, c, i);
    WhereItEnds(cfg, s, i);
    StepEndsIn(cfg, s, i);
  }

  // --- the word ----------------------------------------------------------------------------------

  /** The states a standard drive leaves for OperationEnabled, or stays there, on an enable-operation word. */
  predicate Ready(state: DriveState) { state in {SwitchedOn, OperationEnabled, QuickStopActive} }

  /** The sequencer's mode check, this cycle included. */
  predicate ModeRefused(m: ProfileMode, i: CycleIn) {
    var e := m.sequencer.echo;
    || e.mismatch
    || (!e.checked && i.status.switchedOn && !i.status.enabled
        && (if i.echo.Some? then i.echo.value else 0) != m.intent)
  }

  /** This cycle's word takes a standard drive to OperationEnabled, or keeps it there. */
  predicate ShipsEnable(cfg: Config, s: Ctl, i: CycleIn) {
    && Ready(i.status.state)
    && if i.stopping then
         s.motion.Cyclic? && i.status.enabled && !i.status.fault && GeneratorOf(s).phase != Holding
       else
         match s.life
         case Init => false
         case Disabled => false
         case Enabling => Echoed(CommandedMode(s.motion), i.echo) || i.status.state == QuickStopActive
         case Resetting => !i.batch.disable && Confirmed(cfg, s, i)
         case Homing => !i.busFault && !i.batch.disable && !i.batch.halt && !i.batch.quickStop
         case Operational =>
           && !i.busFault && !i.batch.disable
           && (i.batch.startHoming.Some?
               || (!i.batch.quickStop && (s.motion.Profile? ==> !ModeRefused(s.motion.profile, i))))
  }

  lemma EnablingShips(cfg: Config, s: Ctl, i: CycleIn)
    requires s.life == Enabling && !i.stopping
    ensures DriveNext(i.status.state, StepEnabling(cfg, s, i).image.cw) == OperationEnabled <==> ShipsEnable(cfg, s, i)
  {
    if i.status.state in {SwitchedOn, OperationEnabled} && !Echoed(CommandedMode(s.motion), i.echo) {
      HeldStep(cfg, s, i);
    } else if i.status.state != Fault {
      PassedStep(cfg, s, i);
    }
  }

  lemma PassedStep(cfg: Config, s: Ctl, i: CycleIn)
    requires s.life == Enabling && i.status.state != Fault
    requires i.status.state in {SwitchedOn, OperationEnabled} ==> Echoed(CommandedMode(s.motion), i.echo)
    ensures StepEnabling(cfg, s, i).image.cw == Ladder(i.status.state, OperationEnabled)
  {
  }

  lemma HomingShips(cfg: Config, s: Ctl, i: CycleIn)
    requires s.life == Homing && !i.stopping
    ensures DriveNext(i.status.state, StepHoming(cfg, s, i).image.cw) == OperationEnabled <==> ShipsEnable(cfg, s, i)
  {
    if !Faulty(i) && !i.batch.disable && !i.batch.halt && !i.batch.quickStop {
      ProcedureShips(if cfg.modeMapped then s.(image := s.image.(mode := HOMING_MODE)) else s, i);
    }
  }

  lemma ProcedureShips(s: Ctl, i: CycleIn)
    ensures RunProcedure(s, i).image.cw.command == ENABLE_OPERATION.command
  {
  }

  lemma ProfileShips(m: ProfileMode, img: Sequencer.Image, fb: Feedback, i: CycleIn)
    requires fb.status == i.status && fb.echo == i.echo && i.status.state != Fault
    ensures DriveNext(i.status.state, ProfileStep(m, img, fb).image.cw) == OperationEnabled <==>
              Ready(i.status.state) && !ModeRefused(m, i)
  {
  }

  lemma MotionShips(cfg: Config, s: Ctl, i: CycleIn)
    requires i.status.state != Fault
    ensures DriveNext(i.status.state, StepMotion(cfg, s, i).image.cw) == OperationEnabled <==>
              Ready(i.status.state) && (s.motion.Profile? ==> !ModeRefused(s.motion.profile, i))
  {
    if s.motion.Profile? {
      ProfileShips(s.motion.profile, s.image, SeenBy(cfg, s, i), i);
    }
  }

  lemma OperationalShips(cfg: Config, s: Ctl, i: CycleIn)
    requires s.life == Operational && !i.stopping
    ensures DriveNext(i.status.state, StepOperational(cfg, s, i).image.cw) == OperationEnabled <==>
              ShipsEnable(cfg, s, i)
  {
    if Faulty(i) || i.batch.disable || i.batch.startHoming.Some? || i.batch.quickStop {
      BreakingOffShips(cfg, s, i);
    } else {
      assert StepOperational(cfg, s, i) == StepMotion(cfg, s, i);
      MotionShips(cfg, s, i);
    }
  }

  lemma BreakingOffShips(cfg: Config, s: Ctl, i: CycleIn)
    requires Faulty(i) || i.batch.disable || i.batch.startHoming.Some? || i.batch.quickStop
    ensures StepOperational(cfg, s, i).image.cw.command ==
            (if Faulty(i) || i.batch.disable then DISABLE_VOLTAGE
             else if i.batch.startHoming.Some? then ENABLE_OPERATION else QUICK_STOP).command
    ensures i.status.state == Fault ==> StepOperational(cfg, s, i).life == Resetting
  {
  }

  lemma StepShips(cfg: Config, s: Ctl, i: CycleIn)
    requires cfg.Valid() && !i.stopping
    ensures DriveNext(i.status.state, StepLifecycle(cfg, s, i).image.cw) == OperationEnabled <==>
              ShipsEnable(cfg, s, i)
  {
    match s.life
    case Enabling => EnablingShips(cfg, s, i);
    case Homing => HomingShips(cfg, s, i);
    case Operational => OperationalShips(cfg, s, i);
    case _ =>
  }

  lemma ShutdownShips(cfg: Config, s: Ctl, i: CycleIn)
    requires i.stopping
    ensures DriveNext(i.status.state, Shutdown(cfg, s, i).image.cw) == OperationEnabled <==> ShipsEnable(cfg, s, i)
  {
  }

  /** For every cycle of every state, stopping cycles too: the word it ships takes a standard drive to
      OperationEnabled, or keeps it there, exactly under this condition on the routed state and the inputs. */
  lemma EnergizesExactly(cfg: Config, c: Ctl, i: CycleIn)
    requires cfg.Valid()
    ensures DriveNext(i.status.state, Cycle(cfg, c, i).image.cw) == OperationEnabled <==>
              ShipsEnable(cfg, Entered(cfg, c, i), i)
  {
    var s := Entered(cfg, c, i);
    CycleInSteps(cfg, c, i);
    if i.stopping {
      ShutdownShips(cfg, s, i);
    } else {
      StepShips(cfg, s, i);
    }
  }

  /** The echo gate: until 0x6061 echoes the commanded mode, a drive that is switched on or even enabled is
      kept in Enabling and held at SwitchedOn, with the commanded mode on 0x6060 when that is mapped. */
  lemma UnechoedStaysOff(cfg: Config, c: Ctl, i: CycleIn)
    requires cfg.Valid() && !i.stopping && c.life == Enabling
    requires i.status.state in {SwitchedOn, OperationEnabled}
    requires !Echoed(CommandedMode(Entered(cfg, c, i).motion), i.echo)
    ensures var r := Cycle(cfg, c, i);
            && r.life == Enabling && DriveNext(i.status.state, r.image.cw) == SwitchedOn
            && (cfg.modeMapped ==> r.image.mode == CommandedMode(Entered(cfg, c, i).motion))
  {
    var s := Entered(cfg, c, i);
    CycleInSteps(cfg, c, i);
    EnteredUntouched(cfg, c, i);
    HeldStep(cfg, s, i);
  }

  lemma HeldStep(cfg: Config, s: Ctl, i: CycleIn)
    requires s.life == Enabling && i.status.state in {SwitchedOn, OperationEnabled}
    requires !Echoed(CommandedMode(s.motion), i.echo)
    ensures var r := StepEnabling(cfg, s, i);
            && r.life == Enabling && DriveNext(i.status.state, r.image.cw) == SwitchedOn
            && (cfg.modeMapped ==> r.image.mode == CommandedMode(s.motion))
            && r.timers == s.timers.(modeEchoWait := s.timers.modeEchoWait + 1)
            && r.latched == (if s.timers.modeEchoWait + 1 == MODE_ECHO_CYCLES then ModeMismatch else s.latched)
  {
  }

  /** The gate does not stop a drive in its quick-stop reaction: it is sent enable-operation, echoed or not. */
  lemma QuickStopPassesGate(cfg: Config, c: Ctl, i: CycleIn)
    requires cfg.Valid() && !i.stopping && c.life == Enabling && i.status.state == QuickStopActive
    ensures Cycle(cfg, c, i).image.cw == ENABLE_OPERATION && Cycle(cfg, c, i).life == Enabling
  {
    CycleInSteps(cfg, c, i);
    EnteredUntouched(cfg, c, i);
    UngatedStep(cfg, Entered(cfg, c, i), i);
  }

  lemma UngatedStep(cfg: Config, s: Ctl, i: CycleIn)
    requires s.life == Enabling && i.status.state == QuickStopActive
    ensures StepEnabling(cfg, s, i).image.cw == ENABLE_OPERATION && StepEnabling(cfg, s, i).life == Enabling
  {
  }

  // --- the climb, as a closed loop ---------------------------------------------------------------

  /** No command, no bus fault, still serving. */
  predicate Undisturbed(i: CycleIn) { !i.stopping && i.batch == EMPTY_BATCH && !i.busFault }

  lemma NothingRouted(cfg: Config, c: Ctl, i: CycleIn)
    requires Undisturbed(i)
    ensures Entered(cfg, c, i) == c.(ops := [])
  {
  }

  /** Rungs left below OperationEnabled. */
  function Rungs(state: DriveState): nat
    requires state != Fault && state != FaultReactionActive
  {
    match state
    case NotReadyToSwitchOn => 4
    case SwitchOnDisabled => 3
    case ReadyToSwitchOn => 2
    case SwitchedOn => 1
    case QuickStopActive => 1
    case OperationEnabled => 0
  }

  /** The drive is a standard one: what it shows next is where its word took it. */
  predicate Obeys(cs: seq<Ctl>, ins: seq<CycleIn>, k: nat)
    requires |cs| == |ins| + 1 && k + 1 < |ins|
  {
    ins[k + 1].status.state == DriveNext(ins[k].status.state, cs[k + 1].image.cw)
  }

  lemma ClimbStep(cfg: Config, c: Ctl, i: CycleIn)
    requires cfg.Valid() && Undisturbed(i) && c.life == Enabling && Echoed(CommandedMode(c.motion), i.echo)
    requires i.status.state != Fault && i.status.state != FaultReactionActive
    ensures var r := Cycle(cfg, c, i);
            var next := DriveNext(i.status.state, r.image.cw);
            && (if Rungs(i.status.state) == 0 then r.life == Operational
                else next != Fault && next != FaultReactionActive
                     && r.life == Enabling && Rungs(next) == Rungs(i.status.state) - 1)
            && r.timers.modeEchoWait == 0 && r.latched != ModeMismatch
  {
    CycleInSteps(cfg, c, i);
    NothingRouted(cfg, c, i);
    ClimbingStep(cfg, c.(ops := []), i);
  }

  lemma ClimbingStep(cfg: Config, s: Ctl, i: CycleIn)
    requires s.life == Enabling && Echoed(CommandedMode(s.motion), i.echo) && i.status.state != Fault
    ensures var r := StepEnabling(cfg, s, i);
            && r.life == (if i.status.state == OperationEnabled then Operational else Enabling)
            && r.image.cw == Ladder(i.status.state, OperationEnabled)
            && r.timers.modeEchoWait == 0 && r.latched != ModeMismatch
  {
  }

  /** From Enabling with the mode echoed, a standard drive that shows no fault is Operational after exactly as
      many undisturbed cycles as it has rungs left and one, and no earlier. */
  lemma {:induction false} ClimbsToOperational(cfg: Config, cs: seq<Ctl>, ins: seq<CycleIn>, k: nat, n: nat)
    requires cfg.Valid() && IsRun(cfg, cs, ins) && k < |ins| && cs[k].life == Enabling
    requires ins[k].status.state != Fault && ins[k].status.state != FaultReactionActive
    requires var rungs := Rungs(ins[k].status.state); n <= rungs + 1 && k + n <= |ins|
    requires forall j :: k <= j < k + n ==> Undisturbed(ins[j]) && Echoed(CommandedMode(cs[j].motion), ins[j].echo)
    requires forall j :: k <= j && j + 1 < |ins| ==> Obeys(cs, ins, j)
    ensures cs[k + n].life == if n == Rungs(ins[k].status.state) + 1 then Operational else Enabling
    decreases n
  {
    if n > 0 {
      NextClimbs(cfg, cs, ins, k);
      if n > 1 {
        assert Obeys(cs, ins, k);
        ClimbsToOperational(cfg, cs, ins, k + 1, n - 1);
      }
    }
  }

  lemma NextClimbs(cfg: Config, cs: seq<Ctl>, ins: seq<CycleIn>, k: nat)
    requires cfg.Valid() && IsRun(cfg, cs, ins) && k < |ins| && cs[k].life == Enabling
    requires ins[k].status.state != Fault && ins[k].status.state != FaultReactionActive
    requires Undisturbed(ins[k]) && Echoed(CommandedMode(cs[k].motion), ins[k].echo)
    ensures var next := DriveNext(ins[k].status.state, cs[k + 1].image.cw);
            if Rungs(ins[k].status.state) == 0 then cs[k + 1].life == Operational
            else next != Fault && next != FaultReactionActive
                 && cs[k + 1].life == Enabling && Rungs(next) == Rungs(ins[k].status.state) - 1
  {
    assert CycleNo(k);
    ClimbStep(cfg, cs[k], ins[k]);
  }

  // --- and when the echo never comes -------------------------------------------------------------

  /** An undisturbed cycle held by the gate. */
  predicate Held(c: Ctl, i: CycleIn) {
    && Undisturbed(i) && i.status.state in {SwitchedOn, OperationEnabled}
    && !Echoed(CommandedMode(c.motion), i.echo)
  }

  lemma HeldCycle(cfg: Config, c: Ctl, i: CycleIn)
    requires cfg.Valid() && c.life == Enabling && Held(c, i)
    ensures var r := Cycle(cfg, c, i);
            && r.life == Enabling && r.timers.modeEchoWait == c.timers.modeEchoWait + 1
            && r.latched == if r.timers.modeEchoWait == MODE_ECHO_CYCLES then ModeMismatch else c.latched
  {
    CycleInSteps(cfg, c, i);
    NothingRouted(cfg, c, i);
    HeldStep(cfg, c.(ops := []), i);
  }

  lemma NextHeld(cfg: Config, cs: seq<Ctl>, ins: seq<CycleIn>, k: nat)
    requires cfg.Valid() && IsRun(cfg, cs, ins) && k < |ins| && cs[k].life == Enabling && Held(cs[k], ins[k])
    ensures var c, r := cs[k], cs[k + 1];
            && r.life == Enabling && r.timers.modeEchoWait == c.timers.modeEchoWait + 1
            && r.latched == if r.timers.modeEchoWait == MODE_ECHO_CYCLES then ModeMismatch else c.latched
  {
    assert CycleNo(k);
    HeldCycle(cfg, cs[k], ins[k]);
  }

  /** A drive that never echoes the mode is held in Enabling for as long as it does not, and the mismatch is
      reported from the 200th held cycle on, and no earlier. */
  lemma {:induction false} MissingEchoIsReported(cfg: Config, cs: seq<Ctl>, ins: seq<CycleIn>, k: nat, n: nat)
    requires cfg.Valid() && IsRun(cfg, cs, ins) && k + n <= |ins|
    requires cs[k].life == Enabling && cs[k].timers.modeEchoWait == 0
    requires forall j :: k <= j < k + n ==> Held(cs[j], ins[j])
    ensures cs[k + n].life == Enabling && cs[k + n].timers.modeEchoWait == n
    ensures cs[k + n].latched == if n >= MODE_ECHO_CYCLES then ModeMismatch else cs[k].latched
  {
    if n > 0 {
      MissingEchoIsReported(cfg, cs, ins, k, n - 1);
      NextHeld(cfg, cs, ins, k + n - 1);
    }
  }

  // --- Disabled, quick stop and the fault level --------------------------------------------------

  /** Disabled is left by an enable command alone, whatever else is commanded and whatever the drive shows, and
      every word until then, and that of the leaving cycle, is disable-voltage. */
  lemma DisabledHolds(cfg: Config, c: Ctl, i: CycleIn)
    requires cfg.Valid() && !i.stopping && c.life == Disabled
    ensures var r := Cycle(cfg, c, i);
            r.life == (if i.batch.enable then Enabling else Disabled) && r.image.cw == DISABLE_VOLTAGE
  {
    CycleInSteps(cfg, c, i);
    EnteredUntouched(cfg, c, i);
  }

  lemma NextDisabled(cfg: Config, cs: seq<Ctl>, ins: seq<CycleIn>, k: nat)
    requires cfg.Valid() && IsRun(cfg, cs, ins) && k < |ins| && !ins[k].stopping && cs[k].life == Disabled
    ensures cs[k + 1].life == (if ins[k].batch.enable then Enabling else Disabled)
    ensures cs[k + 1].image.cw == DISABLE_VOLTAGE
  {
    assert CycleNo(k);
    DisabledHolds(cfg, cs[k], ins[k]);
  }

  /** A heeded disable de-energizes for good: from that cycle on, until one with an enable command, every word
      is disable-voltage. */
  lemma {:induction false} DisabledStaysOff(cfg: Config, cs: seq<Ctl>, ins: seq<CycleIn>, k: nat, n: nat)
    requires cfg.Valid() && IsRun(cfg, cs, ins) && k + n < |ins| && Steady(ins)
    requires ins[k].batch.disable && HeedsDisable(cs[k], ins[k])
    requires forall j :: k < j <= k + n ==> !ins[j].batch.enable
    ensures cs[k + 1 + n].life == Disabled && cs[k + 1 + n].image.cw == DISABLE_VOLTAGE
  {
    if n == 0 {
      assert CycleNo(k);
      CycleEndsIn(cfg, cs[k], ins[k]);
    } else {
      DisabledStaysOff(cfg, cs, ins, k, n - 1);
      NextDisabled(cfg, cs, ins, k + n);
    }
  }

  /** A quick-stop command in Operational, unless something stronger comes with it, ships the quick-stop word and
      leaves the mode alone. */
  lemma QuickStopShips(cfg: Config, c: Ctl, i: CycleIn)
    requires cfg.Valid() && !i.stopping && c.life == Operational && i.batch.quickStop
    requires !Faulty(i) && !i.batch.disable && i.batch.startHoming.None?
    ensures var r := Cycle(cfg, c, i);
            r.life == Operational && r.image.cw == QUICK_STOP && r.motion == Entered(cfg, c, i).motion
  {
    CycleInSteps(cfg, c, i);
    EnteredUntouched(cfg, c, i);
  }

  /** Every cycle publishes the fault level of its own inputs. */
  lemma FaultLevelIsPublished(cfg: Config, c: Ctl, i: CycleIn)
    requires cfg.Valid()
    ensures Cycle(cfg, c, i).atoms.faulted <==> i.busFault || i.status.fault
  {
  }

  // --- the reported error ------------------------------------------------------------------------

  /** A steady cycle that adopts another generation than the active one. */
  predicate Renews(c: Ctl, i: CycleIn) {
    i.batch.setTarget.Some? && i.batch.setTarget.value.generation != c.atoms.active
  }

  /** The cause of each error, in this cycle. */
  predicate Causes(cfg: Config, c: Ctl, i: CycleIn, r: Ctl, why: CtlError) {
    var s := Entered(cfg, c, i);
    match why
    case MotorStopped => i.batch.halt && !i.batch.disable && !Renews(c, i)
    case MotorDisabled => i.batch.disable && !Renews(c, i)
    case LeftOperational => c.life == Operational && Faulty(i)
    case HandshakeTimedOut => FateOf(s, i) == Runs && ModeFault(r.motion) == SetpointNotAcknowledged
    case ModeMismatch =>
      || (FateOf(s, i) == Runs && ModeFault(r.motion) == ModeNotAdopted)
      || (c.life == Enabling && i.status.state in {SwitchedOn, OperationEnabled}
          && !Echoed(CommandedMode(s.motion), i.echo) && c.timers.modeEchoWait + 1 == MODE_ECHO_CYCLES)
    case NoError => Renews(c, i) || (c.life == Enabling && Echoed(CommandedMode(s.motion), i.echo))
  }

  lemma RoutingReports(cfg: Config, c: Ctl, i: CycleIn)
    requires !i.stopping
    ensures Entered(cfg, c, i).latched ==
              if Renews(c, i) then NoError else if i.batch.disable then MotorDisabled
              else if i.batch.halt then MotorStopped else c.latched
  {
    StopsUntouched(cfg, c.(ops := []), i.batch);
  }

  lemma StepReports(cfg: Config, s: Ctl, i: CycleIn)
    requires cfg.Valid() && !i.stopping && s.life != Operational
    ensures var r := StepLifecycle(cfg, s, i);
            && (r.latched != s.latched ==>
                  && s.life == Enabling && r.latched in {NoError, ModeMismatch}
                  && (r.latched == NoError <==> Echoed(CommandedMode(s.motion), i.echo))
                  && (r.latched == ModeMismatch ==>
                        && i.status.state in {SwitchedOn, OperationEnabled}
                        && s.timers.modeEchoWait + 1 == MODE_ECHO_CYCLES))
  {
    if s.life == Homing {
      HomingReports(cfg, s, i);
    }
  }

  lemma HomingReports(cfg: Config, s: Ctl, i: CycleIn)
    requires s.life == Homing
    ensures StepHoming(cfg, s, i).latched == s.latched
  {
    ProcedureReports(if cfg.modeMapped then s.(image := s.image.(mode := HOMING_MODE)) else s, i);
  }

  lemma ProcedureReports(s: Ctl, i: CycleIn)
    ensures RunProcedure(s, i).latched == s.latched
  {
  }

  lemma OperationalReports(cfg: Config, s: Ctl, i: CycleIn)
    requires s.life == Operational && !i.stopping
    ensures var r := StepOperational(cfg, s, i);
            r.latched == match FateOf(s, i)
                         case Fails => LeftOperational
                         case Runs => (match ModeFault(r.motion)
                                       case NoFault => s.latched
                                       case ModeNotAdopted => ModeMismatch
                                       case SetpointNotAcknowledged => HandshakeTimedOut)
                         case _ => s.latched
  {
    if FateOf(s, i) == Runs {
      MotionReports(cfg, s, i);
    }
  }

  lemma MotionReports(cfg: Config, s: Ctl, i: CycleIn)
    requires s.life == Operational && FateOf(s, i) == Runs
    ensures var r := StepOperational(cfg, s, i);
            r.latched == match ModeFault(r.motion)
                         case NoFault => s.latched
                         case ModeNotAdopted => ModeMismatch
                         case SetpointNotAcknowledged => HandshakeTimedOut
  {
    assert StepOperational(cfg, s, i) == StepMotion(cfg, s, i);
  }

  lemma CycleReports(cfg: Config, c: Ctl, i: CycleIn)
    requires cfg.Valid() && !i.stopping
    ensures var s, r := Entered(cfg, c, i), Cycle(cfg, c, i);
            && s.life == c.life && s.timers == c.timers
            && r.latched == StepLifecycle(cfg, s, i).latched
            && (r.life == Operational ==> r.motion == StepLifecycle(cfg, s, i).motion)
  {
    CycleInSteps(cfg, c, i);
    EnteredUntouched(cfg, c, i);
  }

  lemma RunningStays(cfg: Config, s: Ctl, i: CycleIn)
    requires s.life == Operational && FateOf(s, i) == Runs
    ensures StepOperational(cfg, s, i).life == Operational
  {
  }

  /** An error newly reported by a cycle names a cause found in that cycle's inputs; and leaving Operational by
      a fault, and a fault the mode detects, are always reported. */
  lemma ErrorNamesItsCause(cfg: Config, c: Ctl, i: CycleIn)
    requires cfg.Valid() && !i.stopping
    ensures var s, r := Entered(cfg, c, i), Cycle(cfg, c, i);
            && (r.latched != c.latched ==> Causes(cfg, c, i, r, r.latched))
            && (FateOf(s, i) == Fails ==> r.latched == LeftOperational)
            && (FateOf(s, i) == Runs ==> match ModeFault(r.motion)
                                         case NoFault => true
                                         case ModeNotAdopted => r.latched == ModeMismatch
                                         case SetpointNotAcknowledged => r.latched == HandshakeTimedOut)
  {
    var s := Entered(cfg, c, i);
    CycleReports(cfg, c, i);
    RoutingReports(cfg, c, i);
    if s.life == Operational {
      OperationalReports(cfg, s, i);
      CycleEndsIn(cfg, c, i);
      if FateOf(s, i) == Runs {
        RunningStays(cfg, s, i);
      }
    } else {
      StepReports(cfg, s, i);
    }
  }
}
