/** Homing runs always end: within a bound, with one verdict, and truthfully. */
module HomingRun {
  import opened Cia402
  import opened Published
  import opened MotionMode
  import opened Controller
  import opened CycleSteps

  /** What a homing run depends on. */
  datatype Homer = Homer(life: Lifecycle, cycles: nat, timeout: nat, echoWait: nat, verdicts: nat)

  function ViewOf(c: Ctl): Homer {
    Homer(c.life, c.timers.homingCycles, c.timers.homingTimeout, c.timers.homingEchoWait, c.home.verdicts)
  }

  /** A stray StartHoming outside Operational is answered with a verdict of its own. */
  function Stray(v: Homer, i: CycleIn): nat {
    if i.batch.startHoming.Some? && v.life != Operational then 1 else 0
  }

  /** A steady cycle as homing sees it: entry, one bounded wait, or the end with its verdict. */
  ghost predicate HomingStep(v: Homer, i: CycleIn, w: Homer) {
    if v.life == Homing then
      if w.life == Homing then
        && w.verdicts == v.verdicts + Stray(v, i)
        && ((v.echoWait + 1 < MODE_ECHO_CYCLES && w == v.(echoWait := v.echoWait + 1, verdicts := w.verdicts))
            || (v.cycles + 1 < v.timeout && w == v.(cycles := v.cycles + 1, verdicts := w.verdicts)))
      else w.verdicts == v.verdicts + Stray(v, i) + 1
    else
      && w.verdicts == v.verdicts + Stray(v, i)
      && (w.life == Homing ==> v.life == Operational && i.batch.startHoming.Some?
                               && w == Homer(Homing, 0, i.batch.startHoming.value.timeoutCycles, 0, v.verdicts))
  }

  /** A cycle that publishes "attained" saw mode 6 echoed, bit 12 set and bit 13 clear, and recorded the
      actual position as the reference with a zero software offset. */
  ghost predicate Truthful(c: Ctl, i: CycleIn, d: Ctl) {
    OpVerdict(true) in d.ops ==>
      && c.life == Homing
      && Echoed(HOMING_MODE, i.echo) && i.status.ack && !i.status.homingError
      && d.home.homed && d.home.counts == i.actual && d.home.zeroOffset == 0 && d.home.fail == NoFail
  }

  lemma StepHomes(cfg: Config, s: Ctl, i: CycleIn, v: Homer)
    requires cfg.Valid() && v == ViewOf(s).(verdicts := v.verdicts) && s.home.verdicts == v.verdicts + Stray(v, i)
    ensures HomingStep(v, i, ViewOf(StepLifecycle(cfg, s, i)))
  {
    match s.life
    case Init =>
    case Enabling => EnablingHomes(cfg, s, i);
    case Operational => OperationalHomes(cfg, s, i);
    case Homing => RunHomes(cfg, s, i, v);
    case Resetting =>
    case Disabled =>
  }

  lemma EnablingHomes(cfg: Config, s: Ctl, i: CycleIn)
    requires s.life == Enabling
    ensures var r := StepEnabling(cfg, s, i); r.life != Homing && r.home == s.home
    ensures ViewOf(StepEnabling(cfg, s, i)).(life := s.life) == ViewOf(s)
  {
  }

  lemma OperationalHomes(cfg: Config, s: Ctl, i: CycleIn)
    requires s.life == Operational
    ensures HomingStep(ViewOf(s), i, ViewOf(StepOperational(cfg, s, i)))
  {
  }

  lemma RunHomes(cfg: Config, s: Ctl, i: CycleIn, v: Homer)
    requires s.life == Homing && v == ViewOf(s).(verdicts := v.verdicts) && s.home.verdicts == v.verdicts + Stray(v, i)
    ensures HomingStep(v, i, ViewOf(StepHoming(cfg, s, i)))
  {
    ProcedureHomes(if cfg.modeMapped then s.(image := s.image.(mode := HOMING_MODE)) else s, i, v);
  }

  lemma ProcedureHomes(s: Ctl, i: CycleIn, v: Homer)
    requires s.life == Homing && v == ViewOf(s).(verdicts := v.verdicts) && s.home.verdicts == v.verdicts + Stray(v, i)
    ensures HomingStep(v, i, ViewOf(RunProcedure(s, i)))
  {
  }

  lemma StepTruthful(cfg: Config, s: Ctl, i: CycleIn)
    requires cfg.Valid() && OpVerdict(true) !in s.ops
    ensures Truthful(s, i, StepLifecycle(cfg, s, i))
  {
    match s.life
    case Init =>
    case Enabling =>
    case Operational => OperationalTruthful(cfg, s, i);
    case Homing => RunTruthful(cfg, s, i);
    case Resetting =>
    case Disabled =>
  }

  lemma OperationalTruthful(cfg: Config, s: Ctl, i: CycleIn)
    requires OpVerdict(true) !in s.ops
    ensures OpVerdict(true) !in StepOperational(cfg, s, i).ops
  {
  }

  lemma RunTruthful(cfg: Config, s: Ctl, i: CycleIn)
    requires s.life == Homing && OpVerdict(true) !in s.ops
    ensures Truthful(s, i, StepHoming(cfg, s, i))
  {
    if Interrupts(i) {
      InterruptedIsSilent(cfg, s, i);
    } else {
      ProcedureTruthful(if cfg.modeMapped then s.(image := s.image.(mode := HOMING_MODE)) else s, i);
    }
  }

  predicate Interrupts(i: CycleIn) {
    i.status.state == Fault || i.busFault || i.batch.disable || i.batch.halt || i.batch.quickStop
  }

  lemma InterruptedIsSilent(cfg: Config, s: Ctl, i: CycleIn)
    requires OpVerdict(true) !in s.ops && Interrupts(i)
    ensures OpVerdict(true) !in StepHoming(cfg, s, i).ops
  {
    assert FinishHoming(s, DriveFaulted).ops == s.ops + [OpVerdict(false)];
    assert FinishHoming(s, Cancelled).ops == s.ops + [OpVerdict(false)];
  }

  lemma ProcedureTruthful(s: Ctl, i: CycleIn)
    requires s.life == Homing && OpVerdict(true) !in s.ops
    ensures Truthful(s, i, RunProcedure(s, i))
  {
  }

  lemma CycleHomes(cfg: Config, c: Ctl, i: CycleIn)
    requires cfg.Valid() && !i.stopping
    ensures HomingStep(ViewOf(c), i, ViewOf(Cycle(cfg, c, i)))
    ensures Truthful(c, i, Cycle(cfg, c, i))
  {
    SteadyCycle(cfg, c, i);
    var s := Route(cfg, c.(ops := []), i);
    StepHomes(cfg, s, i, ViewOf(c));
    StepTruthful(cfg, s, i);
  }

  // --- runs ---------------------------------------------------------------------------------

  ghost predicate HomingTrace(vs: seq<Homer>, ins: seq<CycleIn>) {
    |vs| == |ins| + 1 && forall k :: 0 <= k < |ins| ==> HomingStep(vs[k], ins[k], vs[k + 1])
  }

  function Views(cs: seq<Ctl>): seq<Homer> { seq(|cs|, k requires 0 <= k < |cs| => ViewOf(cs[k])) }

  /** Every steady run is a homing trace, and every "attained" in it is truthful. */
  lemma RunIsHomingTrace(cfg: Config, cs: seq<Ctl>, ins: seq<CycleIn>)
    requires cfg.Valid() && IsRun(cfg, cs, ins) && Steady(ins)
    ensures HomingTrace(Views(cs), ins)
    ensures forall k :: 0 <= k < |ins| ==> Truthful(cs[k], ins[k], cs[k + 1])
  {
    forall k | 0 <= k < |ins|
      ensures HomingStep(Views(cs)[k], ins[k], Views(cs)[k + 1]) && Truthful(cs[k], ins[k], cs[k + 1])
    {
      NextHomes(cfg, cs, ins, k);
    }
  }

  lemma NextHomes(cfg: Config, cs: seq<Ctl>, ins: seq<CycleIn>, k: nat)
    requires cfg.Valid() && IsRun(cfg, cs, ins) && Steady(ins) && k < |ins|
    ensures HomingStep(ViewOf(cs[k]), ins[k], ViewOf(cs[k + 1])) && Truthful(cs[k], ins[k], cs[k + 1])
  {
    assert CycleNo(k);
    CycleHomes(cfg, cs[k], ins[k]);
  }

  /** Stray verdicts published in cycles a .. a + n - 1. */
  function Strays(vs: seq<Homer>, ins: seq<CycleIn>, a: nat, n: nat): nat
    requires a + n <= |ins| && |vs| == |ins| + 1
  {
    if n == 0 then 0 else Strays(vs, ins, a, n - 1) + Stray(vs[a + n - 1], ins[a + n - 1])
  }

  /** n cycles into a run, its two waits add up to n and are both below their bounds. */
  lemma {:induction false} WaitsAddUp(vs: seq<Homer>, ins: seq<CycleIn>, a: nat, n: nat)
    requires HomingTrace(vs, ins) && a + n <= |ins|
    requires vs[a].cycles == 0 && vs[a].echoWait == 0
    requires forall k :: a <= k <= a + n ==> vs[k].life == Homing
    ensures var w := vs[a + n];
            && w.cycles + w.echoWait == n && w.timeout == vs[a].timeout
            && w.echoWait < MODE_ECHO_CYCLES && (w.cycles > 0 ==> w.cycles < w.timeout)
            && w.verdicts == vs[a].verdicts + Strays(vs, ins, a, n)
  {
    if n > 0 {
      WaitsAddUp(vs, ins, a, n - 1);
      assert HomingStep(vs[a + n - 1], ins[a + n - 1], vs[a + n]);
    }
  }

  /** Homing entered in cycle a: any inputs leave it within timeout + 200 cycles. Whenever it has been
      Homing for n more cycles, n is below that bound. */
  lemma HomingIsBounded(cfg: Config, cs: seq<Ctl>, ins: seq<CycleIn>, a: nat, n: nat)
    requires cfg.Valid() && IsRun(cfg, cs, ins) && Steady(ins) && a + 1 + n <= |ins|
    requires cs[a].life != Homing && forall k :: a < k <= a + 1 + n ==> cs[k].life == Homing
    ensures ins[a].batch.startHoming.Some?
    ensures n < ins[a].batch.startHoming.value.timeoutCycles + MODE_ECHO_CYCLES
  {
    RunIsHomingTrace(cfg, cs, ins);
    var vs := Views(cs);
    assert HomingStep(vs[a], ins[a], vs[a + 1]);
    WaitsAddUp(vs, ins, a + 1, n);
  }

  /** A run entered in cycle a that is left in cycle b has published exactly one verdict of its own:
      every other one answers a stray StartHoming drained meanwhile. */
  lemma OneVerdictPerRun(cfg: Config, cs: seq<Ctl>, ins: seq<CycleIn>, a: nat, b: nat)
    requires cfg.Valid() && IsRun(cfg, cs, ins) && Steady(ins) && a < b < |ins|
    requires cs[a].life != Homing && cs[b + 1].life != Homing
    requires forall k :: a < k <= b ==> cs[k].life == Homing
    ensures cs[b + 1].home.verdicts == cs[a].home.verdicts + 1 + Strays(Views(cs), ins, a + 1, b - a)
  {
    RunIsHomingTrace(cfg, cs, ins);
    OneVerdictPerStay(Views(cs), ins, a, b);
  }

  lemma OneVerdictPerStay(vs: seq<Homer>, ins: seq<CycleIn>, a: nat, b: nat)
    requires HomingTrace(vs, ins) && a < b < |ins|
    requires vs[a].life != Homing && vs[b + 1].life != Homing
    requires forall k :: a < k <= b ==> vs[k].life == Homing
    ensures vs[b + 1].verdicts == vs[a].verdicts + 1 + Strays(vs, ins, a + 1, b - a)
  {
    assert HomingStep(vs[a], ins[a], vs[a + 1]);
    WaitsAddUp(vs, ins, a + 1, b - a - 1);
    assert HomingStep(vs[b], ins[b], vs[b + 1]);
  }

  /** "Attained" is published only in a cycle that echoes mode 6 (when 0x6061 is mapped) with bit 12 set
      and bit 13 clear, together with that cycle's actual as home position and a zero offset. */
  lemma AttainedIsTruthful(cfg: Config, cs: seq<Ctl>, ins: seq<CycleIn>, k: nat)
    requires cfg.Valid() && IsRun(cfg, cs, ins) && Steady(ins) && k < |ins|
    ensures Truthful(cs[k], ins[k], cs[k + 1])
  {
    RunIsHomingTrace(cfg, cs, ins);
  }

  // --- the word and the reason -------------------------------------------------------------------

  /** The drive's procedure is told to run: the mode is echoed and the run neither ends nor times out here. */
  predicate Proceeds(t: Timers, i: CycleIn) {
    && Echoed(HOMING_MODE, i.echo) && !i.status.homingError && !i.status.ack && t.homingCycles + 1 < t.homingTimeout
  }

  /** What ends a run here, an interruption before anything else. */
  predicate Because(t: Timers, i: CycleIn, fail: HomingFail) {
    match fail
    case DriveFaulted => i.status.state == Fault || i.busFault
    case Cancelled =>
      i.status.state != Fault && !i.busFault && (i.batch.disable || i.batch.halt || i.batch.quickStop)
    case ModeNotFollowed =>
      !Interrupts(i) && !Echoed(HOMING_MODE, i.echo) && t.homingEchoWait + 1 >= MODE_ECHO_CYCLES
    case DriveError => !Interrupts(i) && Echoed(HOMING_MODE, i.echo) && i.status.homingError
    case NoFail => !Interrupts(i) && Echoed(HOMING_MODE, i.echo) && !i.status.homingError && i.status.ack
    case TimedOut =>
      && !Interrupts(i) && Echoed(HOMING_MODE, i.echo) && !i.status.homingError && !i.status.ack
      && t.homingCycles + 1 >= t.homingTimeout
    case NotOperational => false
  }

  /** The word of a cycle of a run, and the reason if it ends it. */
  predicate Shows(cfg: Config, t: Timers, i: CycleIn, r: Ctl) {
    && (r.life != Homing ==> Because(t, i, r.home.fail))
    && (r.image.cw.newSetpoint <==> !Interrupts(i) && Proceeds(t, i))
    && (r.image.cw.halt <==> Because(t, i, DriveError) || Because(t, i, TimedOut))
    && (!Interrupts(i) ==> r.image.cw.command == ENABLE_OPERATION.command && !r.image.cw.faultReset)
    && (!Interrupts(i) && cfg.modeMapped ==> r.image.mode == HOMING_MODE)
  }

  lemma ProcedureShows(cfg: Config, s: Ctl, i: CycleIn)
    requires s.life == Homing && !Interrupts(i) && (cfg.modeMapped ==> s.image.mode == HOMING_MODE)
    ensures Shows(cfg, s.timers, i, RunProcedure(s, i))
  {
    if !Echoed(HOMING_MODE, i.echo) {
      UnechoedShows(cfg, s, i);
    } else {
      EchoedShows(cfg, s, i);
    }
  }

  lemma UnechoedShows(cfg: Config, s: Ctl, i: CycleIn)
    requires s.life == Homing && !Interrupts(i) && (cfg.modeMapped ==> s.image.mode == HOMING_MODE)
    requires !Echoed(HOMING_MODE, i.echo)
    ensures Shows(cfg, s.timers, i, RunProcedure(s, i))
  {
  }

  lemma EchoedShows(cfg: Config, s: Ctl, i: CycleIn)
    requires s.life == Homing && !Interrupts(i) && (cfg.modeMapped ==> s.image.mode == HOMING_MODE)
    requires Echoed(HOMING_MODE, i.echo)
    ensures Shows(cfg, s.timers, i, RunProcedure(s, i))
  {
  }

  lemma HomingShows(cfg: Config, s: Ctl, i: CycleIn)
    requires s.life == Homing
    ensures Shows(cfg, s.timers, i, StepHoming(cfg, s, i))
  {
    if !Interrupts(i) {
      ProcedureShows(cfg, if cfg.modeMapped then s.(image := s.image.(mode := HOMING_MODE)) else s, i);
    }
  }

  /** Publishing and tracking keep what a step shows. */
  lemma SteppedShows(cfg: Config, s: Ctl, i: CycleIn)
    requires cfg.Valid() && !i.stopping && s.life == Homing
    ensures var q, r := StepHoming(cfg, s, i), PublishState(cfg, Stepped(cfg, s, i), i);
            && r.life == q.life && r.home == q.home && r.image.cw == q.image.cw && r.image.mode == q.image.mode
  {
  }

  /** The word of every cycle of a run, and the reason it leaves: bit 4, the start of the procedure, is high exactly
      while the mode is echoed and the run goes on; Halt exactly when the drive reports an error or the run
      times out; the drive stays enabled unless the run is interrupted; and the failure code names what ended
      it. */
  lemma StartBitExactly(cfg: Config, c: Ctl, i: CycleIn)
    requires cfg.Valid() && !i.stopping && c.life == Homing
    ensures Shows(cfg, c.timers, i, Cycle(cfg, c, i))
  {
    CycleInSteps(cfg, c, i);
    EnteredUntouched(cfg, c, i);
    HomingShows(cfg, Entered(cfg, c, i), i);
    SteppedShows(cfg, Entered(cfg, c, i), i);
  }

  /** The entry word leaves bit 4 low, so the start bit always rises: the first cycle that finds the mode echoed is
      a rising edge. */
  lemma EntryLeavesBitLow(cfg: Config, c: Ctl, i: CycleIn)
    requires cfg.Valid() && !i.stopping && c.life != Homing && Cycle(cfg, c, i).life == Homing
    ensures Cycle(cfg, c, i).image.cw == ENABLE_OPERATION
  {
    CycleInSteps(cfg, c, i);
    EnteredUntouched(cfg, c, i);
    EntryWord(cfg, Entered(cfg, c, i), i);
  }

  lemma EntryWord(cfg: Config, s: Ctl, i: CycleIn)
    requires cfg.Valid() && s.life != Homing && StepLifecycle(cfg, s, i).life == Homing
    ensures StepLifecycle(cfg, s, i).image.cw == ENABLE_OPERATION
  {
  }
}
