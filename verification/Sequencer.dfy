/** The CiA 402 motion sequencer: enable ladder, mode-echo check and the new-set-point handshake. */
module Sequencer {
  import opened Cia402

  /** Cycles the written controlword must have had Halt clear before bit 4 may be raised. */
  const HALT_SETTLE_CYCLES := 2
  /** Acknowledge (and acknowledge-clear) timeout. */
  const HANDSHAKE_TIMEOUT := 100

  datatype Phase = Idle | WriteTarget | AwaitAck | ClearBit4 | AwaitAckClear

  /** The handshake: its phase, the published idle and timeout flags, and its two counters. */
  datatype Handshake = Handshake(phase: Phase, idle: bool, timedOut: bool, remaining: nat, haltClear: nat)

  /** The mode echo: 0x6061 as last read, and the two latches of the check at SwitchedOn. */
  datatype ModeEcho = ModeEcho(current: int, checked: bool, mismatch: bool)

  datatype SeqState = SeqState(handshake: Handshake, echo: ModeEcho, lastCw: ControlWord, announcedOp: bool)

  const RESET_STATE :=
    SeqState(Handshake(Idle, true, false, 0, HALT_SETTLE_CYCLES), ModeEcho(0, false, false), DISABLE_VOLTAGE, false)

  /** The staged command image of one axis (RxPDO). */
  datatype Image = Image(cw: ControlWord, mode: int, target: int, profileVelocity: nat, targetVelocity: int)

  datatype SeqCommand = SeqCommand(
    mode: int,
    target: int,
    profileVelocity: nat,
    targetVelocity: int,
    enable: bool,
    halt: bool,
    newSetpoint: bool)

  /** What one cycle shows the sequencer; `echo` is 0x6061 when mapped. */
  datatype SeqIn = SeqIn(status: Status, echo: Option<int>, stopping: bool)

  datatype SeqOut = SeqOut(state: SeqState, image: Image, stopRequested: bool)

  // --- one step, as a function ---------------------------------------------

  /** Halt settling and arming, done by every step before anything else. */
  function Arm(h: Handshake, lastHalt: bool, newSetpoint: bool): Handshake {
    var settled := if lastHalt then 0 else if h.haltClear < HALT_SETTLE_CYCLES then h.haltClear + 1 else h.haltClear;
    if newSetpoint then Handshake(WriteTarget, false, false, h.remaining, settled)
    else h.(timedOut := false, haltClear := settled)
  }

  /** One handshake phase, and whether it shows bit 4. */
  function Shake(h: Handshake, ack: bool): (r: (Handshake, bool))
    ensures r.0.haltClear == h.haltClear
    ensures r.0.phase == AwaitAck ==> r.1
    ensures r.1 ==> h.phase == AwaitAck || (h.phase == WriteTarget && h.haltClear >= HALT_SETTLE_CYCLES)
  {
    match h.phase
    case Idle => (h.(idle := true), false)
    case WriteTarget =>
      if h.haltClear < HALT_SETTLE_CYCLES then (h.(idle := false), false)
      else (h.(phase := AwaitAck, idle := false, remaining := HANDSHAKE_TIMEOUT), true)
    case AwaitAck =>
      if ack then (h.(phase := ClearBit4, idle := false), true)
      else if h.remaining == 0 then (h.(phase := Idle, idle := true, timedOut := true), false)
      else (h.(idle := false, remaining := h.remaining - 1), true)
    case ClearBit4 => (h.(phase := AwaitAckClear, idle := false, remaining := HANDSHAKE_TIMEOUT), false)
    case AwaitAckClear =>
      if !ack then (h.(phase := Idle, idle := true), false)
      else if h.remaining == 0 then (h.(phase := Idle, idle := true, timedOut := true), false)
      else (h.(idle := false, remaining := h.remaining - 1), false)
  }

  function Levels(newSetpoint: bool, halt: bool): ControlWord {
    ENABLE_OPERATION.(newSetpoint := newSetpoint, halt := halt)
  }

  /** OperationEnabled: stream the velocity, or run one handshake phase. */
  function Operate(h: Handshake, img: Image, cmd: SeqCommand, ack: bool): (r: (Handshake, Image))
    ensures r.0.haltClear == h.haltClear && !r.1.cw.faultReset && r.1.cw.halt == cmd.halt
  {
    if cmd.mode == PROFILE_VELOCITY then
      (h, img.(mode := cmd.mode, targetVelocity := cmd.targetVelocity, cw := Levels(false, cmd.halt)))
    else
      var (g, bit4) := Shake(h, ack);
      (g, img.(mode := cmd.mode, target := cmd.target, profileVelocity := cmd.profileVelocity,
               cw := Levels(bit4, cmd.halt)))
  }

  /** The check at SwitchedOn that 0x6061 echoes the commanded mode. A mismatch requests a stop. */
  function CheckMode(e: ModeEcho, i: SeqIn, cmd: SeqCommand): (ModeEcho, bool) {
    if cmd.enable && !e.checked && !e.mismatch && i.status.switchedOn && !i.status.enabled then
      if e.current == cmd.mode then (e.(checked := true), false) else (e.(mismatch := true), true)
    else (e, false)
  }

  /** The step reaches OperationEnabled streaming. */
  predicate Operates(mismatch: bool, i: SeqIn, cmd: SeqCommand) {
    !i.stopping && i.status.state != Fault && cmd.enable && !mismatch && i.status.enabled
  }

  function Step(s: SeqState, img: Image, i: SeqIn, cmd: SeqCommand): (r: SeqOut)
    ensures i.status.state != Fault || i.stopping ==> !r.image.cw.faultReset
    ensures r.state.handshake.haltClear == Arm(s.handshake, s.lastCw.halt, cmd.newSetpoint).haltClear
    ensures r.state.lastCw == if i.stopping then s.lastCw else r.image.cw
  {
    var h := Arm(s.handshake, s.lastCw.halt, cmd.newSetpoint);
    var e := s.echo.(current := if i.echo.Some? then i.echo.value else 0);
    if i.stopping then
      var cw := if !s.announcedOp || i.status.fault || i.status.switchOnDisabled then DISABLE_VOLTAGE
                else QUICK_STOP_RAMP;
      SeqOut(SeqState(h, e, s.lastCw, s.announcedOp), img.(cw := cw, targetVelocity := 0), false)
    else
      var (f, mismatch) := CheckMode(e, i, cmd);
      if Operates(f.mismatch, i, cmd) then
        var (g, out) := Operate(h, img, cmd, i.status.ack);
        SeqOut(SeqState(g, f, out.cw, true), out, mismatch)
      else
        var cw := if i.status.state == Fault then (if s.lastCw.faultReset then DISABLE_VOLTAGE else FAULT_RESET)
                  else if !cmd.enable then SHUTDOWN
                  else Ladder(i.status.state, if f.mismatch then ReadyToSwitchOn else OperationEnabled);
        SeqOut(SeqState(h, f, cw, s.announcedOp), img.(mode := cmd.mode, cw := cw), mismatch)
  }

  // --- the object ----------------------------------------------------------

  class Cia402Sequencer {
    var handshake: Handshake
    var echo: ModeEcho
    var lastCw: ControlWord
    var announcedOp: bool

    ghost function State(): SeqState
      reads this
    {
      SeqState(handshake, echo, lastCw, announcedOp)
    }

    constructor ()
      ensures State() == RESET_STATE
    {
      handshake := Handshake(Idle, true, false, 0, HALT_SETTLE_CYCLES);
      echo := ModeEcho(0, false, false);
      lastCw, announcedOp := DISABLE_VOLTAGE, false;
    }

    method Reset()
      modifies this
      ensures State() == RESET_STATE
    {
      handshake := Handshake(Idle, true, false, 0, HALT_SETTLE_CYCLES);
      echo := ModeEcho(0, false, false);
      lastCw, announcedOp := DISABLE_VOLTAGE, false;
    }

    /** Counts Halt-free words off the last controlword, and arms a new set-point. */
    method Settle(newSetpoint: bool)
      modifies this`handshake
      ensures handshake == Arm(old(handshake), lastCw.halt, newSetpoint)
    {
      handshake := handshake.(timedOut := false);
      if lastCw.halt {
        handshake := handshake.(haltClear := 0);
      } else if handshake.haltClear < HALT_SETTLE_CYCLES {
        handshake := handshake.(haltClear := handshake.haltClear + 1);
      }
      if newSetpoint {
        handshake := handshake.(phase := WriteTarget, idle := false);
      }
    }

    method DriveOperational(img: Image, cmd: SeqCommand, ack: bool) returns (out: Image)
      modifies this`handshake
      ensures (handshake, out) == Operate(old(handshake), img, cmd, ack)
    {
      var base := ENABLE_OPERATION;
      out := img.(mode := cmd.mode);
      if cmd.mode == PROFILE_VELOCITY {
        if cmd.halt {
          base := base.(halt := true);
        }
        return out.(targetVelocity := cmd.targetVelocity, cw := base);
      }
      match handshake.phase {
        case Idle =>
        case WriteTarget =>
          if handshake.haltClear >= HALT_SETTLE_CYCLES {
            base := base.(newSetpoint := true);
            handshake := handshake.(phase := AwaitAck, remaining := HANDSHAKE_TIMEOUT);
          }
        case AwaitAck =>
          if ack {
            handshake := handshake.(phase := ClearBit4);
            base := base.(newSetpoint := true);
          } else if handshake.remaining == 0 {
            handshake := handshake.(timedOut := true, phase := Idle);
          } else {
            handshake := handshake.(remaining := handshake.remaining - 1);
            base := base.(newSetpoint := true);
          }
        case ClearBit4 =>
          handshake := handshake.(phase := AwaitAckClear, remaining := HANDSHAKE_TIMEOUT);
        case AwaitAckClear =>
          if !ack {
            handshake := handshake.(phase := Idle);
          } else if handshake.remaining == 0 {
            handshake := handshake.(timedOut := true, phase := Idle);
          } else {
            handshake := handshake.(remaining := handshake.remaining - 1);
          }
      }
      handshake := handshake.(idle := handshake.phase == Idle);
      if cmd.halt {
        base := base.(halt := true);
      }
      out := out.(target := cmd.target, profileVelocity := cmd.profileVelocity, cw := base);
    }

    method Advance(img: Image, i: SeqIn, cmd: SeqCommand) returns (out: Image, stopRequested: bool)
      modifies this
      ensures SeqOut(State(), out, stopRequested) == Step(old(State()), img, i, cmd)
    {
      stopRequested := false;
      echo := echo.(current := if i.echo.Some? then i.echo.value else 0);
      Settle(cmd.newSetpoint);
      if i.stopping {
        var qcw := QUICK_STOP_RAMP;
        if !announcedOp || i.status.fault || i.status.switchOnDisabled {
          qcw := DISABLE_VOLTAGE;
        }
        out := img.(targetVelocity := 0, cw := qcw);
        return;
      }
      out := img.(mode := cmd.mode);
      if cmd.enable && !echo.checked && !echo.mismatch && i.status.switchedOn && !i.status.enabled {
        if echo.current == cmd.mode {
          echo := echo.(checked := true);
        } else {
          echo := echo.(mismatch := true);
          stopRequested := true;
        }
      }
      var cw := Ladder(i.status.state, if cmd.enable && !echo.mismatch then OperationEnabled else ReadyToSwitchOn);
      if i.status.state == Fault {
        cw := if lastCw.faultReset then DISABLE_VOLTAGE else FAULT_RESET;
      } else if cmd.enable && !echo.mismatch && i.status.enabled {
        announcedOp := true;
        out := DriveOperational(out, cmd, i.status.ack);
        cw := out.cw;
      } else if !cmd.enable {
        cw := SHUTDOWN;
      }
      out := out.(cw := cw);
      lastCw := cw;
    }
  }

  // --- runs ----------------------------------------------------------------

  datatype Input = Input(i: SeqIn, cmd: SeqCommand)

  const BLANK := Image(DISABLE_VOLTAGE, 0, 0, 0, 0)

  /** State after one input; the image a step leaves never feeds the next state. */
  function After(s: SeqState, x: Input): SeqState {
    Step(s, BLANK, x.i, x.cmd).state
  }

  function Run(s: SeqState, xs: seq<Input>): SeqState {
    if xs == [] then s else After(Run(s, xs[..|xs| - 1]), xs[|xs| - 1])
  }

  lemma StateIgnoresImage(s: SeqState, img: Image, x: Input)
    ensures Step(s, img, x.i, x.cmd).state == After(s, x)
    ensures Step(s, img, x.i, x.cmd).image.cw == Step(s, BLANK, x.i, x.cmd).image.cw
  {
  }

  /** The step runs the profile-position handshake. */
  predicate RunsHandshake(s: SeqState, x: Input) {
    Operates(s.echo.mismatch, x.i, x.cmd) && x.cmd.mode != PROFILE_VELOCITY
  }

  // --- halt settling: a rise of bit 4 follows two Halt-free words ------------

  predicate Steady(xs: seq<Input>) { forall k :: 0 <= k < |xs| ==> !xs[k].i.stopping }

  /** The word shipped `back` steps before the end of the run carried Halt; none was shipped before it. */
  predicate HaltAgo(xs: seq<Input>, back: nat) { back <= |xs| && Run(RESET_STATE, xs[..|xs| - back]).lastCw.halt }

  /** The settle counter of a step is exactly the number of Halt-free words ending one step before it,
      capped at two: 0 after Halt, 1 one word later, 2 from then on (and since reset). */
  lemma {:induction false} SettledThroughRun(xs: seq<Input>)
    ensures var n := Run(RESET_STATE, xs).handshake.haltClear;
            && (n == 0 <==> HaltAgo(xs, 1))
            && (n == 1 <==> !HaltAgo(xs, 1) && HaltAgo(xs, 2))
            && (n == 2 <==> !HaltAgo(xs, 1) && !HaltAgo(xs, 2))
  {
    if xs != [] {
      var pre := xs[..|xs| - 1];
      SettledThroughRun(pre);
      if |xs| >= 2 {
        assert pre[..|pre| - 1] == xs[..|xs| - 2];
      } else {
        assert Run(RESET_STATE, pre) == RESET_STATE;
      }
    }
  }

  /** Halt is on the wire exactly after an operating step that commands it. */
  lemma HaltIsCommanded(s: SeqState, x: Input)
    requires !x.i.stopping
    ensures After(s, x).lastCw.halt <==> Operates(s.echo.mismatch, x.i, x.cmd) && x.cmd.halt
  {
  }

  /** What a step that shows bit 4 tells about the state it started from. */
  lemma RaisedFrom(s: SeqState, x: Input)
    requires !x.i.stopping && After(s, x).lastCw.newSetpoint
    ensures After(s, x).handshake.haltClear >= HALT_SETTLE_CYCLES || s.handshake.phase == AwaitAck
  {
  }

  /** A handshake step that ends in AwaitAck has bit 4 on the wire. */
  lemma AwaitAckShowsBitFour(s: SeqState, x: Input)
    requires RunsHandshake(s, x) && After(s, x).handshake.phase == AwaitAck
    ensures After(s, x).lastCw.newSetpoint
  {
  }

  /** The step `back` before the end of the run operated and commanded Halt. */
  predicate HaltedAgo(xs: seq<Input>, back: nat) {
    && 1 <= back < |xs|
    && var x, s := xs[|xs| - 1 - back], Run(RESET_STATE, xs[..|xs| - 1 - back]);
       Operates(s.echo.mismatch, x.i, x.cmd) && x.cmd.halt
  }

  lemma HaltAgoIsHaltedAgo(xs: seq<Input>, back: nat)
    requires 1 <= back <= 2 && Steady(xs)
    ensures HaltAgo(xs, back) <==> HaltedAgo(xs, back)
  {
    if back < |xs| {
      var pre := xs[..|xs| - back];
      assert pre[..|pre| - 1] == xs[..|xs| - 1 - back];
      HaltIsCommanded(Run(RESET_STATE, pre[..|pre| - 1]), pre[|pre| - 1]);
    } else if back == |xs| {
      assert xs[..0] == [];
    }
  }

  /** Over every run since reset, with any statuswords, halts, gaps and set-points, the words before a step
      that shows bit 4 are settled (two with Halt clear) exactly when neither of the two steps before it
      operated with Halt commanded. */
  lemma RaisedIsSettledExactly(xs: seq<Input>)
    requires xs != [] && Steady(xs)
    ensures !HaltAgo(xs, 1) && !HaltAgo(xs, 2) <==> !HaltedAgo(xs, 1) && !HaltedAgo(xs, 2)
    ensures Run(RESET_STATE, xs).handshake.haltClear == HALT_SETTLE_CYCLES <==> !HaltedAgo(xs, 1) && !HaltedAgo(xs, 2)
  {
    SettledThroughRun(xs);
    HaltAgoIsHaltedAgo(xs, 1);
    HaltAgoIsHaltedAgo(xs, 2);
  }

  /** The step before the last did not operate the drive. */
  predicate WasOut(xs: seq<Input>) {
    && |xs| >= 2
    && var x := xs[|xs| - 2]; !Operates(Run(RESET_STATE, xs[..|xs| - 2]).echo.mismatch, x.i, x.cmd)
  }

  /** The step before the last operated the drive, streaming a velocity. */
  predicate WasStreaming(xs: seq<Input>) {
    && |xs| >= 2
    && var x := xs[|xs| - 2];
       Operates(Run(RESET_STATE, xs[..|xs| - 2]).echo.mismatch, x.i, x.cmd) && x.cmd.mode == PROFILE_VELOCITY
  }

  /** A rise of bit 4 is settled, or else it resumes a wait for the acknowledge that the step before the
      last, with the drive out of operation or streaming a velocity, had interrupted. */
  lemma RiseIsSettledOrResumed(xs: seq<Input>)
    requires xs != [] && Steady(xs)
    requires Run(RESET_STATE, xs).lastCw.newSetpoint && !Run(RESET_STATE, xs[..|xs| - 1]).lastCw.newSetpoint
    ensures || (!HaltAgo(xs, 1) && !HaltAgo(xs, 2))
            || ((WasOut(xs) || WasStreaming(xs)) && Run(RESET_STATE, xs[..|xs| - 1]).handshake.phase == AwaitAck)
  {
    var pre := xs[..|xs| - 1];
    SettledThroughRun(xs);
    RaisedFrom(Run(RESET_STATE, pre), xs[|xs| - 1]);
    if Run(RESET_STATE, pre).handshake.phase == AwaitAck && pre != [] {
      assert pre[..|pre| - 1] == xs[..|xs| - 2];
      if RunsHandshake(Run(RESET_STATE, xs[..|xs| - 2]), xs[|xs| - 2]) {
        AwaitAckShowsBitFour(Run(RESET_STATE, xs[..|xs| - 2]), xs[|xs| - 2]);
      }
    }
  }

  /** Over every run since reset, with any statuswords, halts and set-points: a rise of bit 4 that
      follows a handshake step (or the reset) comes after two words with Halt clear. */
  lemma BitFourRiseIsHaltSettled(xs: seq<Input>)
    requires xs != [] && Steady(xs)
    requires Run(RESET_STATE, xs).lastCw.newSetpoint
    requires !Run(RESET_STATE, xs[..|xs| - 1]).lastCw.newSetpoint
    requires |xs| >= 2 ==> RunsHandshake(Run(RESET_STATE, xs[..|xs| - 2]), xs[|xs| - 2])
    ensures !HaltAgo(xs, 1) && !HaltAgo(xs, 2)
  {
    RiseIsSettledOrResumed(xs);
  }

  function AtState(state: DriveState, halt: bool, arm: bool): Input {
    var status := Status(state, true, state == OperationEnabled, false, false, false, false, false);
    Input(SeqIn(status, Some(PROFILE_POSITION), false), SeqCommand(PROFILE_POSITION, 0, 0, 0, true, halt, arm))
  }

  function Streaming(): Input {
    AtState(OperationEnabled, false, false).(cmd := SeqCommand(PROFILE_VELOCITY, 0, 0, 0, true, false, false))
  }

  /** Three steps, one by one. */
  lemma RunThree(a: Input, b: Input, c: Input)
    ensures var s := After(RESET_STATE, a);
            && Run(RESET_STATE, [a, b, c]) == After(After(s, b), c)
            && Run(RESET_STATE, [a, b, c][..2]) == After(s, b) && Run(RESET_STATE, [a, b, c][..1]) == s
  {
    var xs := [a, b, c];
    assert xs[..1][..0] == [] && xs[..2][..1] == xs[..1];
    assert Run(RESET_STATE, xs[..1][..0]) == RESET_STATE;
    assert Run(RESET_STATE, xs[..1]) == After(RESET_STATE, a);
  }

  /** Both happen. A drive that leaves OperationEnabled for one cycle while a halted set-point awaits its
      acknowledge sees bit 4 rise again one word after Halt. */
  lemma RiseAfterGapIsNotSettled()
    ensures var xs := [AtState(OperationEnabled, true, true), AtState(SwitchedOn, false, false),
                       AtState(OperationEnabled, false, false)];
            && Steady(xs)
            && Run(RESET_STATE, xs).lastCw.newSetpoint
            && !Run(RESET_STATE, xs[..2]).lastCw.newSetpoint
            && Run(RESET_STATE, xs[..1]).lastCw.halt
  {
    RunThree(AtState(OperationEnabled, true, true), AtState(SwitchedOn, false, false),
             AtState(OperationEnabled, false, false));
  }

  /** So does one that stays enabled and is given a velocity for that cycle. */
  lemma RiseAfterVelocityIsNotSettled()
    ensures var xs := [AtState(OperationEnabled, true, true), Streaming(), AtState(OperationEnabled, false, false)];
            && Steady(xs) && WasStreaming(xs)
            && Run(RESET_STATE, xs).lastCw.newSetpoint
            && !Run(RESET_STATE, xs[..2]).lastCw.newSetpoint
            && Run(RESET_STATE, xs[..1]).lastCw.halt
  {
    RunThree(AtState(OperationEnabled, true, true), Streaming(), AtState(OperationEnabled, false, false));
  }

  // --- handshake timing ------------------------------------------------------

  /** Handshake steps still needed to reach Idle when no halt and no re-arm interferes. */
  function Budget(h: Handshake): nat {
    match h.phase
    case Idle => 0
    case AwaitAckClear => h.remaining + 1
    case ClearBit4 => HANDSHAKE_TIMEOUT + 2
    case AwaitAck => h.remaining + HANDSHAKE_TIMEOUT + 3
    case WriteTarget => 2 * HANDSHAKE_TIMEOUT + 4 + if h.haltClear == 0 then 1 else 0
  }

  /** Undisturbed: the run stays in the handshake, never halts, and arms only on its first step. */
  ghost predicate Undisturbed(s: SeqState, xs: seq<Input>) {
    forall k :: 0 <= k < |xs| ==>
      RunsHandshake(s, xs[k]) && !xs[k].cmd.halt && (xs[k].cmd.newSetpoint <==> k == 0)
  }

  lemma BudgetFalls(s: SeqState, x: Input)
    requires RunsHandshake(s, x) && !x.cmd.halt && !x.cmd.newSetpoint && !s.lastCw.halt
    ensures var t := After(s, x);
            && Budget(t.handshake) <= (if Budget(s.handshake) == 0 then 0 else Budget(s.handshake) - 1)
            && !t.lastCw.halt && t.echo.mismatch == s.echo.mismatch
            && (t.handshake.timedOut ==> s.handshake.phase != Idle && t.handshake.phase == Idle)
  {
  }

  lemma ArmingBudget(s: SeqState, x: Input)
    requires RunsHandshake(s, x) && !x.cmd.halt && x.cmd.newSetpoint
    ensures var t := After(s, x);
            && Budget(t.handshake) <= 2 * HANDSHAKE_TIMEOUT + 5
            && !t.lastCw.halt && t.echo.mismatch == s.echo.mismatch
            && !t.handshake.timedOut && t.handshake.phase != Idle
  {
  }

  /** Steps of the run on which the timeout flag was up. */
  function Timeouts(s: SeqState, xs: seq<Input>): nat {
    if xs == [] then 0
    else Timeouts(s, xs[..|xs| - 1]) + if Run(s, xs).handshake.timedOut then 1 else 0
  }

  /** From any state, a set-point with no later halt or re-arm is back to Idle after 206 handshake
      steps (2 settling, 1 raising, 101 awaiting, 1 clearing, 101 awaiting the clear), and the timeout
      flag is up on at most one of them. */
  lemma {:induction false} HandshakeTiming(s: SeqState, xs: seq<Input>)
    requires xs != [] && Undisturbed(s, xs)
    ensures var t := Run(s, xs);
            && Budget(t.handshake) <= (if |xs| <= 206 then 206 - |xs| else 0)
            && (|xs| >= 206 ==> t.handshake.phase == Idle)
            && Timeouts(s, xs) <= 1
            && (t.handshake.phase != Idle ==> Timeouts(s, xs) == 0)
            && !t.lastCw.halt && t.echo.mismatch == s.echo.mismatch
  {
    var pre := xs[..|xs| - 1];
    if pre == [] {
      assert Run(s, pre) == s && Timeouts(s, pre) == 0;
      ArmingBudget(s, xs[0]);
    } else {
      HandshakeTiming(s, pre);
      BudgetFalls(Run(s, pre), xs[|xs| - 1]);
    }
  }
}
