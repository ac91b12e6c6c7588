/** A cycle in two steps: what it does to the mode of a live move, and the publication. */
module CycleSteps {
  import opened Cia402
  import opened Commands
  import opened MotionMode
  import opened Published
  import opened Controller

  // --- moves -------------------------------------------------------------------------------------

  function TargetOf(t: SetTarget, actual: int): int {
    if t.relative then RelativeTarget(actual, t.counts) else t.counts
  }

  /** Generation g is the active move, neither completed nor failed. */
  predicate Live(a: Atoms, g: nat) { g != 0 && a.active == g && MoveLive(a) }

  /** The cycle adopts generation g, which is new. */
  predicate Adopts(c: Ctl, i: CycleIn, g: nat) {
    && g != 0 && !i.stopping && i.batch.setTarget.Some? && i.batch.setTarget.value.generation == g
    && c.atoms.active != g && c.atoms.completed != g && c.atoms.failed != g
  }

  /** The cycle drains no set-point of generation g; a stopping cycle drains nothing. */
  predicate LeavesAlone(i: CycleIn, g: nat) {
    i.stopping || (i.batch.setTarget.Some? ==> i.batch.setTarget.value.generation != g)
  }

  // --- the cycle in steps ------------------------------------------------------------------------

  /** The state once the commands are routed. */
  function Entered(cfg: Config, c: Ctl, i: CycleIn): Ctl {
    if i.stopping then c.(ops := []) else Route(cfg, c.(ops := []), i)
  }

  /** The state before the publication. */
  function Stepped(cfg: Config, s: Ctl, i: CycleIn): Ctl
    requires cfg.Valid()
  {
    if i.stopping then Shutdown(cfg, s, i) else AfterRouting(cfg, s, i)
  }

  lemma CycleInSteps(cfg: Config, c: Ctl, i: CycleIn)
    requires cfg.Valid()
    ensures Cycle(cfg, c, i) == PublishState(cfg, Stepped(cfg, Entered(cfg, c, i), i), i)
  {
  }

  // --- what a cycle does with the mode -----------------------------------------------------------

  datatype Fate =
    | Fails   // a fault in Operational fails the move
    | Runs    // one Operational cycle of the mode
    | Waits   // the mode does not run
    | Dropped // the mode is reset
    | Stops   // the controlled stop

  /** This cycle ends a homing run. */
  predicate EndsHoming(c: Ctl, i: CycleIn) {
    || i.status.state == Fault || i.busFault || i.batch.disable || i.batch.halt || i.batch.quickStop
    || if !Echoed(HOMING_MODE, i.echo) then c.timers.homingEchoWait + 1 >= MODE_ECHO_CYCLES
       else i.status.homingError || i.status.ack || c.timers.homingCycles + 1 >= c.timers.homingTimeout
  }

  function FateOf(s: Ctl, i: CycleIn): Fate {
    if i.stopping then Stops
    else
      match s.life
      case Operational =>
        if i.status.state == Fault || i.busFault then Fails
        else if i.batch.disable || i.batch.startHoming.Some? then Dropped
        else if i.batch.quickStop then Waits else Runs
      case Homing => if EndsHoming(s, i) then Dropped else Waits
      case Resetting => Waits
      case Disabled => Waits
      case _ => if i.status.state == Fault then Dropped else Waits
  }

  /** The cycle energizes: Enabling hands over to Operational. */
  predicate Energizes(s: Ctl, i: CycleIn) {
    s.life == Enabling && i.status.state == OperationEnabled && Echoed(CommandedMode(s.motion), i.echo)
  }

  /** The cycle ends outside Operational. */
  predicate EndsOff(s: Ctl, i: CycleIn) {
    || FateOf(s, i) == Dropped
    || (FateOf(s, i) == Fails)
    || (FateOf(s, i) == Waits && s.life != Operational && !Energizes(s, i))
  }

  lemma WhereItEnds(cfg: Config, s: Ctl, i: CycleIn)
    requires cfg.Valid() && !i.stopping
    ensures StepLifecycle(cfg, s, i).life != Operational <==> EndsOff(s, i)
  {
    if s.life == Homing {
      HomingEndsOff(cfg, s, i);
    }
  }

  lemma HomingEndsOff(cfg: Config, s: Ctl, i: CycleIn)
    requires s.life == Homing
    ensures StepHoming(cfg, s, i).life != Operational
  {
  }

  /** The move is as live in `r` as in `s`, and `r` runs the mode `m`. */
  predicate Leaves(s: Ctl, r: Ctl, m: Motion) {
    && r.motion == m && r.ring == s.ring
    && r.atoms.(homing := s.atoms.homing) == s.atoms
  }

  lemma WaitingStep(cfg: Config, s: Ctl, i: CycleIn)
    requires cfg.Valid() && FateOf(s, i) == Waits
    ensures Leaves(s, StepLifecycle(cfg, s, i), s.motion)
    ensures s.life != Homing ==> !StepLifecycle(cfg, s, i).image.cw.newSetpoint
  {
    if s.life == Homing {
      WaitingHoming(cfg, s, i);
    }
  }

  lemma WaitingHoming(cfg: Config, s: Ctl, i: CycleIn)
    requires s.life == Homing && !EndsHoming(s, i)
    ensures Leaves(s, StepHoming(cfg, s, i), s.motion)
  {
  }

  lemma DroppingStep(cfg: Config, s: Ctl, i: CycleIn)
    requires cfg.Valid() && FateOf(s, i) == Dropped
    ensures Leaves(s, StepLifecycle(cfg, s, i), ModeReset(s.motion))
    ensures s.life != Homing ==> !StepLifecycle(cfg, s, i).image.cw.newSetpoint
  {
    if s.life == Homing {
      DroppingHoming(cfg, s, i);
    }
  }

  lemma FinishLeaves(s: Ctl, x: Ctl, fail: HomingFail, cw: ControlWord)
    requires x.motion == s.motion && x.atoms == s.atoms && x.ring == s.ring
    ensures Leaves(s, Written(FinishHoming(x, fail), cw), ModeReset(s.motion))
  {
  }

  lemma DroppingHoming(cfg: Config, s: Ctl, i: CycleIn)
    requires s.life == Homing && EndsHoming(s, i)
    ensures Leaves(s, StepHoming(cfg, s, i), ModeReset(s.motion))
  {
    if i.status.state == Fault || i.busFault {
      FinishLeaves(s, s, DriveFaulted, DISABLE_VOLTAGE);
    } else if i.batch.disable || i.batch.halt || i.batch.quickStop {
      FinishLeaves(s, s, Cancelled, DISABLE_VOLTAGE);
    } else {
      var t := if cfg.modeMapped then s.(image := s.image.(mode := HOMING_MODE)) else s;
      if !Echoed(HOMING_MODE, i.echo) {
        DroppingUnechoed(t, i);
      } else {
        DroppingEchoed(t, i);
      }
    }
  }

  lemma DroppingUnechoed(s: Ctl, i: CycleIn)
    requires !Echoed(HOMING_MODE, i.echo) && s.timers.homingEchoWait + 1 >= MODE_ECHO_CYCLES
    ensures Leaves(s, RunProcedure(s, i), ModeReset(s.motion))
  {
    var w := s.(timers := s.timers.(homingEchoWait := s.timers.homingEchoWait + 1));
    FinishLeaves(s, w, ModeNotFollowed, ENABLE_OPERATION);
  }

  lemma DroppingEchoed(s: Ctl, i: CycleIn)
    requires Echoed(HOMING_MODE, i.echo)
    requires i.status.homingError || i.status.ack || s.timers.homingCycles + 1 >= s.timers.homingTimeout
    ensures Leaves(s, RunProcedure(s, i), ModeReset(s.motion))
  {
    if i.status.homingError {
      FinishLeaves(s, s, DriveError, ENABLE_OPERATION.(halt := true));
    } else if i.status.ack {
      var h := s.(home := s.home.(homed := true, counts := i.actual, zeroOffset := 0));
      FinishLeaves(s, h, NoFail, ENABLE_OPERATION);
    } else {
      var t := s.(timers := s.timers.(homingCycles := s.timers.homingCycles + 1));
      FinishLeaves(s, t, TimedOut, ENABLE_OPERATION.(halt := true));
    }
  }

  lemma FailingStep(cfg: Config, s: Ctl, i: CycleIn)
    requires cfg.Valid() && FateOf(s, i) == Fails && MoveLive(s.atoms)
    ensures var r := StepLifecycle(cfg, s, i);
            && r.motion == ModeReset(s.motion) && r.atoms.active == s.atoms.active
            && r.atoms.completed == s.atoms.completed && !MoveLive(r.atoms)
  {
  }

  // --- routing -----------------------------------------------------------------------------------

  /** The generation that is active once the batch is routed. */
  function ActiveAfter(b: Batch, active: nat): nat {
    if b.setTarget.Some? then b.setTarget.value.generation else active
  }

  /** Routing touches neither the completed generation nor the lifecycle, the ring and the sequencer. */
  predicate Untouched(c: Ctl, r: Ctl) {
    && r.atoms.completed == c.atoms.completed && r.life == c.life && r.timers == c.timers && r.ring == c.ring
    && (c.motion.Profile? ==>
          && r.motion.Profile? && r.motion.profile.sequencer == c.motion.profile.sequencer
          && r.motion.profile.echoWait == c.motion.profile.echoWait)
    && (c.motion.Cyclic? ==> r.motion.Cyclic?)
  }

  lemma StopsUntouched(cfg: Config, c: Ctl, b: Batch)
    ensures var r := RouteStops(cfg, c, b);
            && Untouched(c, r) && r.atoms.active == c.atoms.active
            && (b.halt || b.disable ==> !MoveLive(r.atoms))
            && (!b.halt ==> r.motion == c.motion)
            && (!b.halt && !b.disable ==> r.atoms == c.atoms)
  {
  }

  lemma TargetUntouched(cfg: Config, c: Ctl, b: Batch, actual: int)
    ensures var r := RouteTarget(cfg, c, b, actual);
            && Untouched(c, r) && r.atoms == c.atoms.(active := ActiveAfter(b, c.atoms.active))
            && (ActiveAfter(b, c.atoms.active) == c.atoms.active ==> r.motion == c.motion)
  {
  }

  lemma RestUntouched(cfg: Config, c: Ctl, b: Batch)
    ensures var r := RouteRest(cfg, c, b);
            && Untouched(c, r) && r.atoms.(homing := c.atoms.homing) == c.atoms
            && r.motion == if b.setVelocity.Some? then ModeSetVelocity(cfg, c.motion, b.setVelocity.value) else c.motion
  {
  }

  lemma RouteActive(cfg: Config, c: Ctl, i: CycleIn)
    ensures var r := Route(cfg, c, i); Untouched(c, r) && r.atoms.active == ActiveAfter(i.batch, c.atoms.active)
  {
    var s := RouteStops(cfg, c, i.batch);
    StopsUntouched(cfg, c, i.batch);
    TargetUntouched(cfg, s, i.batch, i.actual);
    RestUntouched(cfg, RouteTarget(cfg, s, i.batch, i.actual), i.batch);
  }

  /** What routing leaves of a move that was live and is not replaced: nothing stopped it, and the mode has
      at most been given a velocity. */
  lemma RoutedLive(cfg: Config, c: Ctl, i: CycleIn, g: nat)
    requires g != 0 && !i.stopping && LeavesAlone(i, g)
    ensures var s := Route(cfg, c, i);
            Live(s.atoms, g) ==>
              && Live(c.atoms, g) && !i.batch.halt && !i.batch.disable
              && s.motion == if i.batch.setVelocity.Some? then ModeSetVelocity(cfg, c.motion, i.batch.setVelocity.value)
                             else c.motion
  {
    var s := RouteStops(cfg, c, i.batch);
    StopsUntouched(cfg, c, i.batch);
    TargetUntouched(cfg, s, i.batch, i.actual);
    var t := RouteTarget(cfg, s, i.batch, i.actual);
    RestUntouched(cfg, t, i.batch);
  }

  /** What routing leaves of the move the cycle adopts. */
  lemma RoutedAdopted(cfg: Config, c: Ctl, i: CycleIn, g: nat)
    requires Adopts(c, i, g)
    ensures var s, t := Route(cfg, c, i), i.batch.setTarget.value;
            var moved := ModeGoTo(cfg, RouteStops(cfg, c, i.batch).motion, TargetOf(t, i.actual), t.profileVelocity);
            && Live(s.atoms, g)
            && s.motion == if i.batch.setVelocity.Some? then ModeSetVelocity(cfg, moved, i.batch.setVelocity.value)
                           else moved
  {
    var s := RouteStops(cfg, c, i.batch);
    StopsUntouched(cfg, c, i.batch);
    StopsKeepOthers(cfg, c, i, g);
    TargetUntouched(cfg, s, i.batch, i.actual);
    var t := RouteTarget(cfg, s, i.batch, i.actual);
    TargetMoves(cfg, s, i);
    RestUntouched(cfg, t, i.batch);
  }

  lemma StopsKeepOthers(cfg: Config, c: Ctl, i: CycleIn, g: nat)
    requires Adopts(c, i, g)
    ensures Adopts(RouteStops(cfg, c, i.batch), i, g)
  {
  }

  lemma TargetMoves(cfg: Config, c: Ctl, i: CycleIn)
    requires i.batch.setTarget.Some? && i.batch.setTarget.value.generation != c.atoms.active
    ensures var t := i.batch.setTarget.value;
            RouteTarget(cfg, c, i.batch, i.actual).motion
            == ModeGoTo(cfg, c.motion, TargetOf(t, i.actual), t.profileVelocity)
  {
  }

  lemma EnteredUntouched(cfg: Config, c: Ctl, i: CycleIn)
    ensures Untouched(c, Entered(cfg, c, i))
  {
    if !i.stopping {
      RouteActive(cfg, c.(ops := []), i);
    }
  }
}
