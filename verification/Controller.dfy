/** The servo controller's cycle as a function: lifecycle, motion mode, published state. */
module Controller {
  import opened Arith
  import opened Cia402
  import opened Commands
  import opened Sequencer
  import opened Trapezoid
  import opened MotionMode
  import opened Published

  datatype Lifecycle = Init | Enabling | Operational | Resetting | Homing | Disabled

  /** Why a homing run failed (None: it attained). */
  datatype HomingFail =
    | NoFail
    | ModeNotFollowed
    | DriveError
    | TimedOut
    | Cancelled
    | DriveFaulted
    | NotOperational

  /** The controller's own error tier: why the last abort or refusal happened. */
  datatype CtlError = NoError | HandshakeTimedOut | LeftOperational | MotorStopped | MotorDisabled | ModeMismatch

  /** The selected motion mode. */
  datatype Motion = Profile(profile: ProfileMode) | Cyclic(cyclic: CyclicMode)

  /** Configuration the cycle reads; the reset window is a divisor, so it is at least 1. */
  datatype Config = Config(
    window: nat,
    confirm: nat,
    estop: nat,
    modeMapped: bool,
    tolerance: int,
    bitUsable: bool,
    quickStopDecel: nat,
    params: CyclicParams)
  {
    predicate Valid() { window >= 1 }
  }

  datatype Timers = Timers(
    resetCycles: nat,
    clearStreak: nat,
    modeEchoWait: nat,
    homingCycles: nat,
    homingTimeout: nat,
    homingEchoWait: nat)

  /** What a homing run leaves behind, and how many verdicts have been published. */
  datatype HomeRef = HomeRef(homed: bool, counts: int, zeroOffset: int, fail: HomingFail, verdicts: nat)

  /** The ring of recent actual positions behind "the shaft is at rest". */
  datatype RingValue = RingValue(values: seq<int>, index: nat, filled: nat, atRest: bool)

  type Ring = r: RingValue | r.values == [] || r.index < |r.values| witness RingValue([], 0, 0, false)

  datatype Ctl = Ctl(
    life: Lifecycle,
    timers: Timers,
    motion: Motion,
    atoms: Atoms,
    ops: seq<RtOp>,
    wake: nat,
    latched: CtlError,
    home: HomeRef,
    ring: Ring,
    image: Image,
    stopAtRest: bool,
    stopRequested: bool)

  /** One cycle's input: the latched image, the bus latch, the drained commands, the Runner's phase. */
  datatype CycleIn = CycleIn(
    status: Status,
    actual: int,
    echo: Option<int>,
    faultCode: nat,
    busFault: bool,
    batch: Batch,
    stopping: bool)

  // --- the motion mode behind one interface ----------------------------------------

  function ModeReset(m: Motion): Motion {
    match m
    case Profile(_) => Profile(PROFILE_RESET)
    case Cyclic(c) => Cyclic(CyclicReset(c))
  }

  function CommandedMode(m: Motion): int {
    if m.Profile? then m.profile.intent else CYCLIC_SYNC_POSITION
  }

  function ModeTarget(m: Motion): int {
    if m.Profile? then m.profile.target else m.cyclic.generator.goal
  }

  function ModeGoTo(cfg: Config, m: Motion, target: int, velocity: nat): Motion {
    match m
    case Profile(p) => Profile(ProfileGoTo(p, target, velocity))
    case Cyclic(c) => Cyclic(CyclicGoTo(c, cfg.params, target, velocity))
  }

  function ModeSetVelocity(cfg: Config, m: Motion, velocity: int): Motion {
    match m
    case Profile(p) => Profile(ProfileSetVelocity(p, velocity))
    case Cyclic(c) => Cyclic(CyclicSetVelocity(c, cfg.params, velocity))
  }

  function ModeHalt(cfg: Config, m: Motion): Motion {
    match m
    case Profile(p) => Profile(p.(halted := true))
    case Cyclic(c) => Cyclic(CyclicHalt(c, cfg.params))
  }

  predicate ModeReached(m: Motion, fb: Feedback) {
    match m
    case Profile(p) => ProfileReached(p, fb)
    case Cyclic(c) => CyclicReached(c, fb)
  }

  function ModeFault(m: Motion): MotionFault {
    if m.Profile? then ProfileFault(m.profile) else NoFault
  }

  /** What one call of the mode leaves: the mode, the command image, and whether it asked to stop. */
  datatype ModeOut = ModeOut(motion: Motion, image: Image, stopRequested: bool)

  /** One Operational cycle of the mode. */
  function ModeStep(cfg: Config, m: Motion, img: Image, fb: Feedback): ModeOut {
    match m
    case Profile(p) => var out := ProfileStep(p, img, fb); ModeOut(Profile(out.mode), out.image, out.stopRequested)
    case Cyclic(c) => var out := CyclicStep(c, cfg.params, img); ModeOut(Cyclic(out.mode), out.image, false)
  }

  /** One cycle of the controlled stop. */
  function ModeShutdown(cfg: Config, m: Motion, img: Image, fb: Feedback): ModeOut {
    match m
    case Profile(p) =>
      var out := ProfileShutdown(p, img, fb, cfg.quickStopDecel);
      ModeOut(Profile(out.mode), out.image, out.stopRequested)
    case Cyclic(c) =>
      var out := CyclicShutdown(c, cfg.params, img, fb.status, fb.actual);
      ModeOut(Cyclic(out.mode), out.image, false)
  }

  // --- small pieces -----------------------------------------------------------------

  function Written(c: Ctl, cw: ControlWord): Ctl { c.(image := c.image.(cw := cw)) }

  /** One publication, with its wake. */
  function Emit(c: Ctl, op: RtOp): Ctl {
    c.(atoms := Publish(c.atoms, op), ops := c.ops + [op], wake := c.wake + if Bumps(c.atoms, op) then 1 else 0)
  }

  /** Latch why, and fail the active move. */
  function Abort(c: Ctl, why: CtlError): Ctl { Emit(c.(latched := why), OpAbort) }

  /** `r` has published what `c` had, and nothing more. */
  predicate Quiet(c: Ctl, r: Ctl) { r.atoms == c.atoms && r.ops == c.ops && r.wake == c.wake }

  /** `r` has published one more operation than `c`. */
  predicate Emitted(c: Ctl, r: Ctl, op: RtOp) {
    && r.atoms == Publish(c.atoms, op) && r.ops == c.ops + [op]
    && r.wake == c.wake + if Bumps(c.atoms, op) then 1 else 0
  }

  /** What the mode is shown this cycle. */
  function FeedbackOf(cfg: Config, m: Motion, atRest: bool, i: CycleIn): Feedback {
    var gap := i.actual - ModeTarget(m);
    Feedback(i.status, i.actual, i.echo, atRest, -cfg.tolerance <= gap <= cfg.tolerance, cfg.bitUsable)
  }

  function SeenBy(cfg: Config, c: Ctl, i: CycleIn): Feedback { FeedbackOf(cfg, c.motion, c.ring.atRest, i) }

  predicate Within(values: seq<int>, tolerance: int) {
    forall a, b :: 0 <= a < |values| && 0 <= b < |values| ==> values[a] - values[b] <= tolerance
  }

  /** Push the actual into the ring; at rest once it was full and its range is within tolerance. */
  function PushActual(r: Ring, tolerance: int, actual: int): Ring {
    if r.values == [] then r.(atRest := false)
    else
      var values := r.values[r.index := actual];
      var next := (r.index + 1) % |r.values|;
      if r.filled < |r.values| then RingValue(values, next, r.filled + 1, false)
      else RingValue(values, next, r.filled, Within(values, tolerance))
  }

  predicate EstopRead(cfg: Config, i: CycleIn) { cfg.estop != 0 && i.faultCode == cfg.estop }

  /** Publish a homing outcome without touching the lifecycle. */
  function PublishHoming(c: Ctl, fail: HomingFail): Ctl {
    Emit(c.(home := c.home.(fail := fail, verdicts := c.home.verdicts + 1)), OpVerdict(fail == NoFail))
  }

  function FinishHoming(c: Ctl, fail: HomingFail): (r: Ctl)
    ensures r.life == Enabling && r.home == c.home.(fail := fail, verdicts := c.home.verdicts + 1)
    ensures Emitted(c, r, OpVerdict(fail == NoFail)) && r.motion == ModeReset(c.motion)
  {
    PublishHoming(c, fail).(
      motion := ModeReset(c.motion),
      life := Enabling,
      timers := c.timers.(homingCycles := 0, homingEchoWait := 0, modeEchoWait := 0))
  }

  /** Enter fault recovery; the first reset edge goes out now unless the emergency stop is engaged. */
  function EnterResetting(cfg: Config, c: Ctl, i: CycleIn): (r: Ctl)
    ensures r.life == Resetting && r.motion == ModeReset(c.motion) && Quiet(c, r)
  {
    Written(c.(life := Resetting, motion := ModeReset(c.motion),
               timers := c.timers.(resetCycles := 0, clearStreak := 0)),
            if EstopRead(cfg, i) then DISABLE_VOLTAGE else FAULT_RESET)
  }

  function GeneratorOf(c: Ctl): Generator
    requires c.motion.Cyclic?
  {
    c.motion.cyclic.generator
  }

  // --- command routing ----------------------------------------------------------------

  function RouteStops(cfg: Config, c: Ctl, b: Batch): (r: Ctl)
    ensures r.life == c.life && r.timers == c.timers && r.image == c.image && r.home == c.home
    ensures OpVerdict(true) in r.ops ==> OpVerdict(true) in c.ops
    ensures r.motion.Cyclic? == c.motion.Cyclic? && (c.motion.Cyclic? ==> GeneratorOf(r).state == GeneratorOf(c).state)
  {
    var h := if b.halt then Abort(c, MotorStopped) else c;
    var k := if b.halt && b.haltSupersedes then h.(motion := ModeHalt(cfg, h.motion)) else h;
    if b.disable then Abort(k, MotorDisabled) else k
  }

  function RouteTarget(cfg: Config, c: Ctl, b: Batch, actual: int): (r: Ctl)
    ensures r.life == c.life && r.timers == c.timers && r.image == c.image && r.home == c.home
    ensures OpVerdict(true) in r.ops ==> OpVerdict(true) in c.ops
    ensures r.motion.Cyclic? == c.motion.Cyclic? && (c.motion.Cyclic? ==> GeneratorOf(r).state == GeneratorOf(c).state)
  {
    if b.setTarget.Some? && b.setTarget.value.generation != c.atoms.active then
      var t := b.setTarget.value;
      var counts := if t.relative then RelativeTarget(actual, t.counts) else t.counts;
      Emit(c.(motion := ModeGoTo(cfg, c.motion, counts, t.profileVelocity), latched := NoError), OpAdopt(t.generation))
    else c
  }

  function RouteRest(cfg: Config, c: Ctl, b: Batch): (r: Ctl)
    ensures r.life == c.life && r.timers == c.timers && r.image == c.image
    ensures r.home.verdicts == c.home.verdicts + if b.startHoming.Some? && c.life != Operational then 1 else 0
    ensures OpVerdict(true) in r.ops ==> OpVerdict(true) in c.ops
    ensures r.motion.Cyclic? == c.motion.Cyclic? && (c.motion.Cyclic? ==> GeneratorOf(r).state == GeneratorOf(c).state)
  {
    var v := if b.setVelocity.Some? then c.(motion := ModeSetVelocity(cfg, c.motion, b.setVelocity.value)) else c;
    if b.startHoming.Some? && v.life != Operational then PublishHoming(v, NotOperational) else v
  }

  function Route(cfg: Config, c: Ctl, i: CycleIn): (r: Ctl)
    ensures r.life == c.life && r.timers == c.timers && r.image == c.image
    ensures r.home.verdicts == c.home.verdicts + if i.batch.startHoming.Some? && c.life != Operational then 1 else 0
    ensures OpVerdict(true) in r.ops ==> OpVerdict(true) in c.ops
    ensures r.motion.Cyclic? == c.motion.Cyclic? && (c.motion.Cyclic? ==> GeneratorOf(r).state == GeneratorOf(c).state)
  {
    RouteRest(cfg, RouteTarget(cfg, RouteStops(cfg, c, i.batch), i.batch, i.actual), i.batch)
  }

  // --- the lifecycle states -------------------------------------------------------------

  function StepInit(cfg: Config, c: Ctl, i: CycleIn): (r: Ctl)
    ensures r.life != Operational && (r.motion == c.motion || r.motion == ModeReset(c.motion)) && Quiet(c, r)
  {
    if i.status.state == Fault then EnterResetting(cfg, c, i)
    else Written(c.(life := Enabling, timers := c.timers.(modeEchoWait := 0)), DISABLE_VOLTAGE)
  }

  /** Not echoed yet: hold at SwitchedOn; a drive that never echoes the mode is reported once. */
  function HoldForEcho(c: Ctl, i: CycleIn): (r: Ctl)
    ensures r.life == c.life && r.motion == c.motion && Quiet(c, r)
  {
    var n := c.timers.modeEchoWait + 1;
    var why := if n == MODE_ECHO_CYCLES then ModeMismatch else c.latched;
    Written(c.(timers := c.timers.(modeEchoWait := n), latched := why), Ladder(i.status.state, SwitchedOn))
  }

  /** An echo ends the wait and takes back its report. */
  function AcceptEcho(c: Ctl): Ctl {
    c.(timers := c.timers.(modeEchoWait := 0), latched := if c.latched == ModeMismatch then NoError else c.latched)
  }

  /** One rung towards OperationEnabled; a drive that is there hands over to Operational. */
  function ClimbOn(c: Ctl, i: CycleIn): Ctl {
    Written(if i.status.state == OperationEnabled then c.(life := Operational) else c,
            Ladder(i.status.state, OperationEnabled))
  }

  /** The mode-echo gate. */
  function PassGate(c: Ctl, i: CycleIn, echoed: bool): (r: Ctl)
    ensures r.motion == c.motion && r.image.target == c.image.target && Quiet(c, r)
    ensures r.life in {c.life, Operational} && r.home == c.home
    ensures r.timers.(modeEchoWait := 0) == c.timers.(modeEchoWait := 0)
  {
    if !echoed && i.status.state in {SwitchedOn, OperationEnabled} then HoldForEcho(c, i)
    else ClimbOn(if echoed then AcceptEcho(c) else c, i)
  }

  /** Energize only once 0x6061 echoes the commanded mode; hold at SwitchedOn meanwhile. */
  function StepEnabling(cfg: Config, c: Ctl, i: CycleIn): (r: Ctl)
    ensures r.motion == c.motion || r.motion == ModeReset(c.motion)
    ensures r.life == Operational ==> r.motion == c.motion && r.image.target == c.image.target
    ensures Quiet(c, r)
  {
    if i.status.state == Fault then EnterResetting(cfg, c, i)
    else
      var want := CommandedMode(c.motion);
      var m := if cfg.modeMapped then c.(image := c.image.(mode := want)) else c;
      var echoed := Echoed(want, i.echo);
      PassGate(m, i, echoed)
  }

  /** The mode writes its command objects. */
  function RunMode(cfg: Config, c: Ctl, i: CycleIn): Ctl {
    var out := ModeStep(cfg, c.motion, c.image, SeenBy(cfg, c, i));
    c.(motion := out.motion, image := out.image, stopRequested := c.stopRequested || out.stopRequested)
  }

  /** One Operational cycle of the mode; a mode fault fails the active move. */
  function StepMotion(cfg: Config, c: Ctl, i: CycleIn): (r: Ctl)
    ensures r.life == c.life && r.timers == c.timers && r.home == c.home
    ensures r.motion.Cyclic? == c.motion.Cyclic?
    ensures Quiet(c, r) || Emitted(c, r, OpAbort)
    ensures c.motion.Cyclic? ==> CyclicOut(r.motion.cyclic, r.image) == CyclicStep(c.motion.cyclic, cfg.params, c.image)
  {
    var s := RunMode(cfg, c, i);
    match ModeFault(s.motion)
    case NoFault => s
    case ModeNotAdopted => Abort(s, ModeMismatch)
    case SetpointNotAcknowledged => Abort(s, HandshakeTimedOut)
  }

  function StepOperational(cfg: Config, c: Ctl, i: CycleIn): (r: Ctl)
    ensures c.life == Operational && r.life != Operational ==> r.motion == ModeReset(c.motion)
    ensures r.life == Operational ==> r == Written(c, QUICK_STOP) || r == StepMotion(cfg, c, i)
    ensures Quiet(c, r) || Emitted(c, r, OpAbort)
  {
    if i.status.state == Fault || i.busFault then EnterResetting(cfg, Abort(c, LeftOperational), i)
    else if i.batch.disable then Written(c.(life := Disabled, motion := ModeReset(c.motion)), DISABLE_VOLTAGE)
    else if i.batch.startHoming.Some? then
      Written(c.(life := Homing, motion := ModeReset(c.motion),
                 timers := c.timers.(homingCycles := 0, homingEchoWait := 0,
                                     homingTimeout := i.batch.startHoming.value.timeoutCycles)),
              ENABLE_OPERATION)
    else if i.batch.quickStop then Written(c, QUICK_STOP)
    else StepMotion(cfg, c, i)
  }

  /** The drive runs its homing procedure; the loop holds the start bit and bounds the run. */
  function StepHoming(cfg: Config, c: Ctl, i: CycleIn): (r: Ctl)
    ensures r.life == c.life || r.life in {Enabling, Resetting, Disabled}
    ensures Quiet(c, r) || Emitted(c, r, OpVerdict(true)) || Emitted(c, r, OpVerdict(false))
    ensures r.motion == c.motion || r.motion == ModeReset(c.motion)
  {
    if i.status.state == Fault || i.busFault then EnterResetting(cfg, FinishHoming(c, DriveFaulted), i)
    else if i.batch.disable || i.batch.halt || i.batch.quickStop then
      var f := FinishHoming(c, Cancelled);
      Written(if i.batch.disable then f.(life := Disabled) else f, DISABLE_VOLTAGE)
    else RunProcedure(if cfg.modeMapped then c.(image := c.image.(mode := HOMING_MODE)) else c, i)
  }

  /** One cycle of the procedure itself: wait for mode 6, take the drive's verdict, or count down. */
  function RunProcedure(c: Ctl, i: CycleIn): (r: Ctl)
    ensures Quiet(c, r) || Emitted(c, r, OpVerdict(true)) || Emitted(c, r, OpVerdict(false))
    ensures r.life == c.life || r.life == Enabling
    ensures r.motion == c.motion || r.motion == ModeReset(c.motion)
  {
    if !Echoed(HOMING_MODE, i.echo) then
      var w := c.(timers := c.timers.(homingEchoWait := c.timers.homingEchoWait + 1));
      Written(if w.timers.homingEchoWait >= MODE_ECHO_CYCLES then FinishHoming(w, ModeNotFollowed) else w,
              ENABLE_OPERATION)
    else if i.status.homingError then
      Written(FinishHoming(c, DriveError), ENABLE_OPERATION.(halt := true))
    else if i.status.ack then
      var h := c.(home := c.home.(homed := true, counts := i.actual, zeroOffset := 0));
      Written(FinishHoming(h, NoFail), ENABLE_OPERATION)
    else
      var t := c.(timers := c.timers.(homingCycles := c.timers.homingCycles + 1));
      if t.timers.homingCycles >= t.timers.homingTimeout then
        Written(FinishHoming(t, TimedOut), ENABLE_OPERATION.(halt := true))
      else Written(t, ENABLE_OPERATION.(newSetpoint := true))
  }

  /** `n` is a whole number of windows: n % window == 0, as repeated subtraction. */
  predicate OnBoundary(n: nat, window: nat)
    requires window >= 1
  {
    n == 0 || (n >= window && OnBoundary(n - window, window))
  }

  lemma {:induction false} BoundaryIsModulo(n: nat, window: nat)
    requires window >= 1
    ensures OnBoundary(n, window) <==> n % window == 0
  {
    if n >= window {
      BoundaryIsModulo(n - window, window);
      ModuloShift(n, window);
    }
  }

  /** An automatic reset edge is due: still in Fault, no emergency stop, a whole window since the last. */
  predicate EdgeDue(cfg: Config, resetCycles: nat, i: CycleIn)
    requires cfg.Valid()
  {
    i.status.state == Fault && !EstopRead(cfg, i) && OnBoundary(resetCycles, cfg.window)
  }

  function StepResetting(cfg: Config, c: Ctl, i: CycleIn): (r: Ctl)
    requires cfg.Valid()
    ensures r.life in {c.life, Enabling, Disabled} && r.motion == c.motion && Quiet(c, r)
  {
    if i.batch.disable then Written(c.(life := Disabled), DISABLE_VOLTAGE)
    else
      var streak := if i.status.state != Fault then c.timers.clearStreak + 1 else 0;
      if streak >= cfg.confirm then
        Written(c.(life := Enabling, timers := c.timers.(clearStreak := streak, modeEchoWait := 0)),
                Ladder(i.status.state, OperationEnabled))
      else if i.batch.faultReset then
        Written(c.(timers := c.timers.(clearStreak := streak, resetCycles := 0)), FAULT_RESET)
      else
        var cycles := c.timers.resetCycles + 1;
        Written(c.(timers := c.timers.(clearStreak := streak, resetCycles := cycles)),
                if EdgeDue(cfg, cycles, i) then FAULT_RESET else DISABLE_VOLTAGE)
  }

  function StepDisabled(c: Ctl, i: CycleIn): (r: Ctl)
    ensures r.life == c.life || r.life == Enabling
    ensures r.motion == c.motion && Quiet(c, r)
  {
    Written(if i.batch.enable then c.(life := Enabling, timers := c.timers.(modeEchoWait := 0)) else c, DISABLE_VOLTAGE)
  }

  function StepLifecycle(cfg: Config, c: Ctl, i: CycleIn): Ctl
    requires cfg.Valid()
  {
    match c.life
    case Init => StepInit(cfg, c, i)
    case Enabling => StepEnabling(cfg, c, i)
    case Operational => StepOperational(cfg, c, i)
    case Homing => StepHoming(cfg, c, i)
    case Resetting => StepResetting(cfg, c, i)
    case Disabled => StepDisabled(c, i)
  }

  // --- around the lifecycle ---------------------------------------------------------------

  /** While the drive is not enabled the command objects follow the actual position. */
  function Track(c: Ctl, actual: int): (r: Ctl)
    ensures r.life == c.life && r.timers == c.timers && r.image.cw == c.image.cw && r.home == c.home
    ensures Quiet(c, r) && r.motion.Cyclic? == c.motion.Cyclic?
  {
    match c.motion
    case Profile(_) => c
    case Cyclic(m) =>
      var out := CyclicTrack(m, c.image, actual);
      c.(motion := Cyclic(out.mode), image := out.image)
  }

  function PublishState(cfg: Config, c: Ctl, i: CycleIn): (r: Ctl)
    ensures r.life == c.life && r.timers == c.timers && r.image == c.image && r.home == c.home && r.motion == c.motion
    ensures OpVerdict(true) in r.ops <==> OpVerdict(true) in c.ops
  {
    var r := c.(ring := PushActual(c.ring, cfg.tolerance, i.actual));
    var done := i.status.enabled && MoveLive(r.atoms) && ModeReached(r.motion, SeenBy(cfg, r, i));
    Emit(if done then Emit(r, OpComplete) else r, OpFaulted(i.busFault || i.status.fault))
  }

  /** The controlled stop of the stopping window. */
  function Shutdown(cfg: Config, c: Ctl, i: CycleIn): (r: Ctl)
    ensures r.life == c.life && r.timers == c.timers && r.home == c.home && Quiet(c, r)
    ensures !r.image.cw.faultReset
  {
    var out := ModeShutdown(cfg, c.motion, c.image, SeenBy(cfg, c, i));
    c.(motion := out.motion, image := out.image, stopAtRest := i.status.switchOnDisabled)
  }

  /** The lifecycle step of a routed state, tracked when not enabled. */
  function AfterRouting(cfg: Config, s: Ctl, i: CycleIn): Ctl
    requires cfg.Valid()
  {
    var r := StepLifecycle(cfg, s, i);
    if r.life != Operational then Track(r, i.actual) else r
  }

  /** A steady cycle up to the publication. */
  function SteadyStep(cfg: Config, c: Ctl, i: CycleIn): Ctl
    requires cfg.Valid()
  {
    AfterRouting(cfg, Route(cfg, c, i), i)
  }

  function Cycle(cfg: Config, c: Ctl, i: CycleIn): (r: Ctl)
    requires cfg.Valid()
    ensures i.stopping ==> r.life == c.life && r.timers == c.timers && r.home == c.home && !r.image.cw.faultReset
  {
    var b := c.(ops := []);
    PublishState(cfg, if i.stopping then Shutdown(cfg, b, i) else SteadyStep(cfg, b, i), i)
  }

  /** Marks a cycle number; the steps of a run are looked up only where one is named. */
  predicate CycleNo(k: int) { true }

  /** `cs` are the states around the cycles `ins`, in order. */
  ghost predicate IsRun(cfg: Config, cs: seq<Ctl>, ins: seq<CycleIn>)
    requires cfg.Valid()
  {
    && |cs| == |ins| + 1
    && forall k {:trigger CycleNo(k)} :: CycleNo(k) && 0 <= k < |ins| ==> cs[k + 1] == Cycle(cfg, cs[k], ins[k])
  }

  predicate Steady(ins: seq<CycleIn>) { forall k :: 0 <= k < |ins| ==> !ins[k].stopping }

  /** A steady cycle is the lifecycle step of the routed state, tracked and published. */
  lemma SteadyCycle(cfg: Config, c: Ctl, i: CycleIn)
    requires cfg.Valid() && !i.stopping
    ensures var s := StepLifecycle(cfg, Route(cfg, c.(ops := []), i), i);
            var r := Cycle(cfg, c, i);
            && r.life == s.life && r.timers == s.timers && r.image.cw == s.image.cw && r.home == s.home
            && (OpVerdict(true) in r.ops <==> OpVerdict(true) in s.ops)
  {
  }

  const FRESH_TIMERS := Timers(0, 0, 0, 0, 0, 0)

  /** The state reset_run_state leaves, for a mode and a ring of the given window. */
  function Initial(m: Motion, window: nat): Ctl {
    Ctl(Init, FRESH_TIMERS, ModeReset(m), FRESH_ATOMS, [], 0, NoError, HomeRef(false, 0, 0, NoFail, 0),
        RingValue(seq(window, _ => 0), 0, 0, false), Image(DISABLE_VOLTAGE, 0, 0, 0, 0), false, false)
  }
}
