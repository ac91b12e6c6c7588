/** When a live profile-mode move is published completed: exactly, for every cycle. */
module ProfileMoves {
  import opened Cia402
  import opened Sequencer
  import opened MotionMode
  import opened Published
  import opened Controller
  import opened CycleSteps

  /** The drive shows the move done: its own bit when usable, else the actual at the target and at rest. */
  predicate InPlace(cfg: Config, ring: Ring, i: CycleIn, target: int) {
    if cfg.bitUsable then i.status.targetReached
    else -cfg.tolerance <= i.actual - target <= cfg.tolerance && PushActual(ring, cfg.tolerance, i.actual).atRest
  }

  /** One more sequencer step without a new set-point leaves the handshake idle, and not by a timeout. */
  predicate Settles(s: SeqState, ack: bool) {
    if s.echo.mismatch then s.handshake.idle
    else s.handshake.phase == Idle || (s.handshake.phase == AwaitAckClear && !ack)
  }

  /** So does one cycle of the mode: nothing is handed over, and the echo wait does not run out. */
  predicate RunSettles(m: ProfileMode, i: CycleIn) {
    && Settles(m.sequencer, i.status.ack)
    && if Echoed(PROFILE_POSITION, i.echo) then !m.pending else m.echoWait + 1 != MODE_ECHO_CYCLES
  }

  /** The exact condition, on the routed state and the cycle's inputs. */
  predicate CompletesNow(cfg: Config, s: Ctl, i: CycleIn)
    requires s.motion.Profile?
  {
    var m := s.motion.profile;
    && i.status.enabled
    && match FateOf(s, i)
       case Fails => false
       case Dropped => InPlace(cfg, s.ring, i, 0)
       case Runs => m.intent == PROFILE_POSITION && RunSettles(m, i) && InPlace(cfg, s.ring, i, m.target)
       case _ => m.intent == PROFILE_POSITION && m.sequencer.handshake.idle && InPlace(cfg, s.ring, i, m.target)
  }

  lemma PublishMove(cfg: Config, r: Ctl, i: CycleIn, g: nat)
    requires r.motion.Profile? && r.atoms.active == g && g != 0 && r.atoms.completed != g
    ensures var m := r.motion.profile;
            PublishState(cfg, r, i).atoms.completed == g <==>
              && i.status.enabled && MoveLive(r.atoms)
              && m.intent == PROFILE_POSITION && m.sequencer.handshake.idle && InPlace(cfg, r.ring, i, m.target)
  {
  }

  /** One cycle of the mode ends idle in position mode, without failing the move, exactly when it settles. */
  lemma StepEnds(m: ProfileMode, img: Image, fb: Feedback, i: CycleIn)
    requires fb.status == i.status && fb.echo == i.echo && i.status.enabled && i.status.state != Fault
    ensures var out := ProfileStep(m, img, fb);
            && (m.intent == PROFILE_POSITION && RunSettles(m, i) <==>
                  && ProfileFault(out.mode) == NoFault && out.mode.intent == PROFILE_POSITION
                  && out.mode.sequencer.handshake.idle)
            && (ProfileFault(out.mode) == NoFault ==> out.mode.target == m.target)
            && (m.intent == PROFILE_POSITION && RunSettles(m, i) ==>
                  !out.image.cw.newSetpoint && out.mode.pending == m.pending)
  {
  }

  /** Two modes that look alike to a live move. */
  predicate Alike(m: ProfileMode, n: ProfileMode) {
    && n.intent == m.intent && n.target == m.target && n.pending == m.pending
    && n.sequencer.handshake.idle == m.sequencer.handshake.idle
    && n.sequencer.handshake.phase == m.sequencer.handshake.phase
  }

  /** The controlled stop leaves the handshake and the set-point alone. */
  lemma StoppingStep(cfg: Config, s: Ctl, i: CycleIn)
    requires s.motion.Profile?
    ensures var r := Shutdown(cfg, s, i);
            r.motion.Profile? && Alike(s.motion.profile, r.motion.profile) && r.atoms == s.atoms && r.ring == s.ring
            && !r.image.cw.newSetpoint
  {
  }

  /** A cycle that does not run the mode, as a live profile move sees it. */
  lemma IdleStepped(cfg: Config, s: Ctl, i: CycleIn)
    requires cfg.Valid() && s.motion.Profile? && FateOf(s, i) in {Waits, Dropped, Stops}
    ensures var r := Stepped(cfg, s, i);
            && r.motion.Profile? && r.ring == s.ring && r.atoms.(homing := s.atoms.homing) == s.atoms
            && Alike(if FateOf(s, i) == Dropped then PROFILE_RESET else s.motion.profile, r.motion.profile)
            && (i.stopping || s.life != Homing ==> !r.image.cw.newSetpoint)
  {
    match FateOf(s, i)
    case Waits => WaitingStep(cfg, s, i);
    case Dropped => DroppingStep(cfg, s, i);
    case Stops => StoppingStep(cfg, s, i);
  }

  lemma FailedStepped(cfg: Config, s: Ctl, i: CycleIn)
    requires cfg.Valid() && s.motion.Profile? && FateOf(s, i) == Fails && MoveLive(s.atoms)
    ensures var r := Stepped(cfg, s, i);
            && r.motion == ModeReset(s.motion) && r.atoms.active == s.atoms.active
            && r.atoms.completed == s.atoms.completed && !MoveLive(r.atoms)
  {
    FailingStep(cfg, s, i);
  }

  lemma RunningStepped(cfg: Config, s: Ctl, i: CycleIn)
    requires cfg.Valid() && FateOf(s, i) == Runs
    ensures Stepped(cfg, s, i) == StepMotion(cfg, s, i)
  {
  }

  /** One Operational cycle of the mode, as a live profile move sees it. */
  lemma RunShows(cfg: Config, s: Ctl, i: CycleIn)
    requires s.motion.Profile?
    ensures var out, r := ProfileStep(s.motion.profile, s.image, SeenBy(cfg, s, i)), StepMotion(cfg, s, i);
            && r.motion == Profile(out.mode) && r.image == out.image && r.ring == s.ring
            && r.atoms.active == s.atoms.active && r.atoms.completed == s.atoms.completed
            && (ProfileFault(out.mode) == NoFault ==> r.atoms == s.atoms)
            && (ProfileFault(out.mode) != NoFault && MoveLive(s.atoms) ==> !MoveLive(r.atoms))
  {
  }

  /** The set-point is not with the sequencer: it is pending, or it was dropped. */
  predicate Unsent(c: Ctl) {
    c.motion.Profile? && (c.motion.profile.pending || c.motion.profile.sequencer.handshake.phase == Idle)
  }

  /** For every cycle of every lifecycle state, stopping cycles too, with any statusword, echo, faults and
      commands: a live move in profile mode (adopted this cycle or earlier, handed over or not) is
      published completed in it exactly under a condition on the routed state and the inputs; and bit 4
      is then low (in Homing, bit 4 is the start of the homing procedure). */
  lemma LiveMoveCompletesExactly(cfg: Config, c: Ctl, i: CycleIn, g: nat)
    requires cfg.Valid() && Entered(cfg, c, i).motion.Profile? && Live(Entered(cfg, c, i).atoms, g)
    ensures var s, r := Entered(cfg, c, i), Cycle(cfg, c, i);
            && (r.atoms.completed == g <==> CompletesNow(cfg, s, i))
            && (r.atoms.completed == g && (i.stopping || c.life != Homing) ==> !r.image.cw.newSetpoint)
  {
    var s := Entered(cfg, c, i);
    EnteredUntouched(cfg, c, i);
    CycleInSteps(cfg, c, i);
    SteppedCompletesExactly(cfg, s, i, g);
  }

  lemma SteppedCompletesExactly(cfg: Config, s: Ctl, i: CycleIn, g: nat)
    requires cfg.Valid() && s.motion.Profile? && Live(s.atoms, g)
    ensures var r := Stepped(cfg, s, i);
            && (PublishState(cfg, r, i).atoms.completed == g <==> CompletesNow(cfg, s, i))
            && (CompletesNow(cfg, s, i) && (i.stopping || s.life != Homing) ==> !r.image.cw.newSetpoint)
  {
    var r := Stepped(cfg, s, i);
    if FateOf(s, i) == Fails {
      FailedStepped(cfg, s, i);
      PublishMove(cfg, r, i, g);
    } else if FateOf(s, i) == Runs {
      RunningStepped(cfg, s, i);
      RunCompletesExactly(cfg, s, i, g);
    } else {
      IdleStepped(cfg, s, i);
      PublishMove(cfg, r, i, g);
    }
  }

  lemma RunCompletesExactly(cfg: Config, s: Ctl, i: CycleIn, g: nat)
    requires s.motion.Profile? && Live(s.atoms, g) && FateOf(s, i) == Runs
    ensures var r := StepMotion(cfg, s, i);
            && (PublishState(cfg, r, i).atoms.completed == g <==> CompletesNow(cfg, s, i))
            && (CompletesNow(cfg, s, i) ==> !r.image.cw.newSetpoint)
  {
    RunShows(cfg, s, i);
    PublishMove(cfg, StepMotion(cfg, s, i), i, g);
    if i.status.enabled {
      StepEnds(s.motion.profile, s.image, SeenBy(cfg, s, i), i);
    }
  }
}
