/** When a live cyclic-mode move is published completed: exactly, for every cycle, and over whole runs. */
module CyclicMoves {
  import opened Cia402
  import opened Commands
  import opened Trapezoid
  import opened MotionMode
  import opened Published
  import opened Controller
  import opened CycleSteps

  // --- one cycle, exactly ------------------------------------------------------------------------

  /** The mode a cycle leaves, from the routed state and the inputs. */
  function ModeAfter(cfg: Config, s: Ctl, i: CycleIn): CyclicMode
    requires s.motion.Cyclic?
  {
    var m := s.motion.cyclic;
    if i.stopping then CyclicShutdown(m, cfg.params, s.image, i.status, i.actual).mode
    else if EndsOff(s, i) then
      CyclicMode(Reseed(m.generator, i.actual), m.positioning || FateOf(s, i) in {Dropped, Fails})
    else if FateOf(s, i) == Runs then CyclicStep(m, cfg.params, s.image).mode
    else m
  }

  /** The mode holds at its goal, the actual is within tolerance of it and the shaft at rest. */
  predicate Settled(cfg: Config, m: CyclicMode, ring: Ring, i: CycleIn) {
    && m.positioning && m.generator.phase == Holding
    && -cfg.tolerance <= i.actual - m.generator.goal <= cfg.tolerance
    && PushActual(ring, cfg.tolerance, i.actual).atRest
  }

  /** The exact condition, on the routed state and the cycle's inputs. */
  predicate CompletesNow(cfg: Config, s: Ctl, i: CycleIn)
    requires s.motion.Cyclic?
  {
    i.status.enabled && FateOf(s, i) != Fails && Settled(cfg, ModeAfter(cfg, s, i), s.ring, i)
  }

  lemma PublishMove(cfg: Config, r: Ctl, i: CycleIn, g: nat)
    requires r.motion.Cyclic? && r.atoms.active == g && g != 0 && r.atoms.completed != g
    ensures PublishState(cfg, r, i).atoms.completed == g <==>
              i.status.enabled && MoveLive(r.atoms) && Settled(cfg, r.motion.cyclic, r.ring, i)
  {
  }

  /** What a tracked cycle leaves of the mode it entered with. */
  lemma Tracked(r: Ctl, m: CyclicMode, actual: int)
    requires r.motion == Cyclic(m)
    ensures var t := Track(r, actual);
            && t.motion == Cyclic(CyclicMode(Reseed(m.generator, actual), m.positioning))
            && t.atoms == r.atoms && t.ring == r.ring && t.image.target == actual
  {
  }

  /** A cycle as a live cyclic move sees it: the mode it leaves, and what is on the wire. */
  lemma SteppedShows(cfg: Config, s: Ctl, i: CycleIn)
    requires cfg.Valid() && s.motion.Cyclic?
    ensures var r := Stepped(cfg, s, i);
            && r.motion == Cyclic(ModeAfter(cfg, s, i)) && r.ring == s.ring
            && r.atoms.active == s.atoms.active && r.atoms.completed == s.atoms.completed
            && (FateOf(s, i) != Fails ==> r.atoms.(homing := s.atoms.homing) == s.atoms)
            && (FateOf(s, i) == Fails && MoveLive(s.atoms) ==> !MoveLive(r.atoms))
            && (!i.stopping && EndsOff(s, i) ==> r.image.target == i.actual)
  {
    if !i.stopping {
      var r := StepLifecycle(cfg, s, i);
      WhereItEnds(cfg, s, i);
      match FateOf(s, i)
      case Waits =>
        WaitingStep(cfg, s, i);
        Tracked(r, s.motion.cyclic, i.actual);
      case Dropped =>
        DroppingStep(cfg, s, i);
        Tracked(r, CyclicReset(s.motion.cyclic), i.actual);
      case Fails =>
        FailingShows(cfg, s, i);
        Tracked(r, CyclicReset(s.motion.cyclic), i.actual);
      case Runs => RunningShows(cfg, s, i);
    }
  }

  lemma FailingShows(cfg: Config, s: Ctl, i: CycleIn)
    requires cfg.Valid() && FateOf(s, i) == Fails
    ensures var r := StepLifecycle(cfg, s, i);
            && r.motion == ModeReset(s.motion) && r.ring == s.ring
            && r.atoms.active == s.atoms.active && r.atoms.completed == s.atoms.completed
            && (MoveLive(s.atoms) ==> !MoveLive(r.atoms))
  {
  }

  lemma RunningShows(cfg: Config, s: Ctl, i: CycleIn)
    requires cfg.Valid() && s.motion.Cyclic? && FateOf(s, i) == Runs
    ensures var r := StepLifecycle(cfg, s, i);
            && r.life == Operational && r.atoms == s.atoms && r.ring == s.ring
            && r.motion == Cyclic(CyclicStep(s.motion.cyclic, cfg.params, s.image).mode)
  {
  }

  /** For every cycle of every lifecycle state, stopping cycles too, with any statusword, faults and commands:
      a live move in cyclic mode (adopted this cycle or earlier, accepted by the generator or refused) is
      published completed in it exactly when the drive is enabled, the cycle does not fault in Operational
      and the mode it leaves holds within tolerance of the actual, at rest. */
  lemma LiveMoveCompletesExactly(cfg: Config, c: Ctl, i: CycleIn, g: nat)
    requires cfg.Valid() && Entered(cfg, c, i).motion.Cyclic? && Live(Entered(cfg, c, i).atoms, g)
    ensures Cycle(cfg, c, i).atoms.completed == g <==> CompletesNow(cfg, Entered(cfg, c, i), i)
  {
    var s := Entered(cfg, c, i);
    CycleInSteps(cfg, c, i);
    SteppedShows(cfg, s, i);
    PublishMove(cfg, Stepped(cfg, s, i), i, g);
  }

  /** In a cycle that ends off, the reseed makes the move's own target irrelevant: it completes exactly when
      the drive is still enabled and the shaft at rest, unless a velocity command replaced it. */
  lemma OffCompletesExactly(cfg: Config, s: Ctl, i: CycleIn)
    requires s.motion.Cyclic? && cfg.tolerance >= 0 && !i.stopping && EndsOff(s, i)
    ensures CompletesNow(cfg, s, i) <==>
              && i.status.enabled && FateOf(s, i) != Fails && PushActual(s.ring, cfg.tolerance, i.actual).atRest
              && (s.motion.cyclic.positioning || FateOf(s, i) == Dropped)
  {
  }

  /** A held move that stays on: it completes exactly when the actual is within tolerance of the hold point. */
  lemma HeldCompletesExactly(cfg: Config, s: Ctl, i: CycleIn)
    requires s.motion.Cyclic? && GeneratorOf(s).phase == Holding && !i.stopping && !EndsOff(s, i)
    ensures CompletesNow(cfg, s, i) <==> i.status.enabled && Settled(cfg, s.motion.cyclic, s.ring, i)
    ensures ModeAfter(cfg, s, i) == s.motion.cyclic
  {
  }

  // --- where the generator is heading ------------------------------------------------------------

  /** The generator accepts the move: a positive speed and acceleration. */
  predicate Accepted(cfg: Config, t: SetTarget) { t.profileVelocity >= 1 && cfg.params.accel > 0.0 }

  /** On the way to the move's target; stranded where a cycle reseeded the generator; or following something
      else (an older course, because the move was refused, or the shutdown's stop ramp). */
  datatype Course = UnderWay | Stranded(at: int) | Loose

  /** The generator holds at the count. */
  predicate HoldsAt(g: Generator, target: int) {
    g.phase == Holding && g.state == Kinematic(target as real, 0.0) && g.goal == target
  }

  /** What the course says about the mode, unless a velocity command replaced the move. */
  predicate Shows(m: CyclicMode, target: int, k: Course) {
    m.positioning ==>
      match k
      case UnderWay => (m.generator.phase == Positioning && m.generator.goal == target) || HoldsAt(m.generator, target)
      case Stranded(at) => HoldsAt(m.generator, at)
      case Loose => true
  }

  /** What is recorded of a cycle: whether it reseeded the generator and where, and whether it braked it. */
  datatype Cut = Cut(reseeds: bool, actual: int, brakes: bool)

  function CutBy(s: Ctl, i: CycleIn): Cut {
    var off := i.stopping && (!i.status.enabled || i.status.fault);
    Cut(off || (!i.stopping && EndsOff(s, i)), i.actual,
        i.stopping && !off && s.motion.Cyclic? && GeneratorOf(s).phase != Holding)
  }

  function CourseNext(k: Course, e: Cut): Course {
    if e.reseeds then Stranded(e.actual) else if e.brakes then Loose else k
  }

  predicate Followed(c: Ctl, g: nat, target: int, k: Course) {
    c.motion.Cyclic? && (Live(c.atoms, g) ==> Shows(c.motion.cyclic, target, k))
  }

  /** One cycle of the mode keeps the course. */
  lemma ModeKeepsCourse(cfg: Config, s: Ctl, i: CycleIn, target: int, k: Course)
    requires s.motion.Cyclic? && Shows(s.motion.cyclic, target, k)
    ensures Shows(ModeAfter(cfg, s, i), target, CourseNext(k, CutBy(s, i)))
  {
  }

  lemma EnteredFollowed(cfg: Config, c: Ctl, i: CycleIn, g: nat, target: int, k: Course)
    requires g != 0 && Followed(c, g, target, k) && LeavesAlone(i, g)
    ensures Followed(Entered(cfg, c, i), g, target, k)
  {
    EnteredUntouched(cfg, c, i);
    if !i.stopping {
      RoutedLive(cfg, c.(ops := []), i, g);
    }
  }

  lemma AdoptedFollowed(cfg: Config, c: Ctl, i: CycleIn, g: nat)
    requires c.motion.Cyclic? && Adopts(c, i, g)
    ensures var s, t := Entered(cfg, c, i), i.batch.setTarget.value;
            && Followed(s, g, TargetOf(t, i.actual), if Accepted(cfg, t) then UnderWay else Loose) && Live(s.atoms, g)
  {
    EnteredUntouched(cfg, c, i);
    RoutedAdopted(cfg, c.(ops := []), i, g);
    StopsUntouched(cfg, c.(ops := []), i.batch);
  }

  /** What is so in the cycle that publishes a move held at `at` completed. */
  predicate Arrived(cfg: Config, r: Ctl, i: CycleIn, at: int) {
    && r.motion.Cyclic? && HoldsAt(GeneratorOf(r), at)
    && -cfg.tolerance <= i.actual - at <= cfg.tolerance && r.ring.atRest && i.status.enabled
  }

  /** What one cycle does to the course, and what a completion in it means. */
  predicate Follows(cfg: Config, c: Ctl, i: CycleIn, r: Ctl, g: nat, target: int, k: Course) {
    && Followed(r, g, target, k)
    && (r.atoms.completed == g && c.atoms.completed != g ==>
          match k
          case UnderWay => Arrived(cfg, r, i, target)
          case Stranded(at) => Arrived(cfg, r, i, at)
          case Loose => true)
  }

  lemma PublishFollowed(cfg: Config, r: Ctl, i: CycleIn, g: nat, target: int, k: Course)
    requires g != 0 && Followed(r, g, target, k)
    ensures Follows(cfg, r, i, PublishState(cfg, r, i), g, target, k)
  {
  }

  lemma CycleFollows(cfg: Config, c: Ctl, i: CycleIn, g: nat, target: int, k: Course)
    requires cfg.Valid() && g != 0 && Followed(Entered(cfg, c, i), g, target, k)
    ensures Follows(cfg, c, i, Cycle(cfg, c, i), g, target, CourseNext(k, CutBy(Entered(cfg, c, i), i)))
  {
    var s := Entered(cfg, c, i);
    var r := Stepped(cfg, s, i);
    CycleInSteps(cfg, c, i);
    EnteredUntouched(cfg, c, i);
    SteppedShows(cfg, s, i);
    if Live(s.atoms, g) {
      ModeKeepsCourse(cfg, s, i, target, k);
    }
    PublishFollowed(cfg, r, i, g, target, CourseNext(k, CutBy(s, i)));
  }

  // --- whole runs --------------------------------------------------------------------------------

  /** `es` is the record of the run. */
  ghost predicate IsRecord(cfg: Config, cs: seq<Ctl>, ins: seq<CycleIn>, es: seq<Cut>) {
    && |cs| == |ins| + 1 && |es| == |ins|
    && forall k {:trigger CycleNo(k)} :: CycleNo(k) && 0 <= k < |ins| ==>
         es[k] == CutBy(Entered(cfg, cs[k], ins[k]), ins[k])
  }

  /** Every run has a record. */
  function Record(cfg: Config, cs: seq<Ctl>, ins: seq<CycleIn>): (es: seq<Cut>)
    requires |cs| == |ins| + 1
    ensures IsRecord(cfg, cs, ins, es)
  {
    seq(|ins|, k requires 0 <= k < |ins| => CutBy(Entered(cfg, cs[k], ins[k]), ins[k]))
  }

  /** Generation g is adopted in cycle 0, in any lifecycle state, and not pushed again. */
  ghost predicate MoveRun(cfg: Config, cs: seq<Ctl>, ins: seq<CycleIn>, g: nat, n: nat)
    requires cfg.Valid()
  {
    && IsRun(cfg, cs, ins) && 1 <= n <= |ins|
    && cs[0].motion.Cyclic? && Adopts(cs[0], ins[0], g)
    && (forall k :: 0 < k < n ==> LeavesAlone(ins[k], g))
  }

  function MoveTarget(ins: seq<CycleIn>): int
    requires ins != [] && ins[0].batch.setTarget.Some?
  {
    TargetOf(ins[0].batch.setTarget.value, ins[0].actual)
  }

  function CourseAt(es: seq<Cut>, start: Course, n: nat): Course
    requires n <= |es|
  {
    if n == 0 then start else CourseNext(CourseAt(es, start, n - 1), es[n - 1])
  }

  lemma NextLater(cfg: Config, cs: seq<Ctl>, ins: seq<CycleIn>, es: seq<Cut>, g: nat, n: nat, target: int, k: Course)
    requires cfg.Valid() && IsRun(cfg, cs, ins) && IsRecord(cfg, cs, ins, es) && n < |ins|
    requires g != 0 && Followed(cs[n], g, target, k) && LeavesAlone(ins[n], g)
    ensures Follows(cfg, cs[n], ins[n], cs[n + 1], g, target, CourseNext(k, es[n]))
  {
    assert CycleNo(n);
    EnteredFollowed(cfg, cs[n], ins[n], g, target, k);
    CycleFollows(cfg, cs[n], ins[n], g, target, k);
  }

  /** The course a move starts on. */
  function StartOf(cfg: Config, ins: seq<CycleIn>): Course
    requires ins != [] && ins[0].batch.setTarget.Some?
  {
    if Accepted(cfg, ins[0].batch.setTarget.value) then UnderWay else Loose
  }

  lemma NextFirst(cfg: Config, cs: seq<Ctl>, ins: seq<CycleIn>, es: seq<Cut>, g: nat)
    requires cfg.Valid() && MoveRun(cfg, cs, ins, g, 1) && IsRecord(cfg, cs, ins, es)
    ensures Follows(cfg, cs[0], ins[0], cs[1], g, MoveTarget(ins), CourseNext(StartOf(cfg, ins), es[0]))
  {
    assert CycleNo(0);
    AdoptedFollowed(cfg, cs[0], ins[0], g);
    CycleFollows(cfg, cs[0], ins[0], g, MoveTarget(ins), StartOf(cfg, ins));
  }

  lemma {:induction false} FollowedThroughRun(cfg: Config, cs: seq<Ctl>, ins: seq<CycleIn>, es: seq<Cut>, g: nat,
                                              n: nat)
    requires cfg.Valid() && MoveRun(cfg, cs, ins, g, n) && IsRecord(cfg, cs, ins, es)
    ensures Follows(cfg, cs[n - 1], ins[n - 1], cs[n], g, MoveTarget(ins), CourseAt(es, StartOf(cfg, ins), n))
  {
    var start := StartOf(cfg, ins);
    if n == 1 {
      NextFirst(cfg, cs, ins, es, g);
      assert CourseAt(es, start, 0) == start;
    } else {
      FollowedThroughRun(cfg, cs, ins, es, g, n - 1);
      NextLater(cfg, cs, ins, es, g, n - 1, MoveTarget(ins), CourseAt(es, start, n - 1));
    }
  }

  /** No cycle up to n reseeded or braked the generator. */
  predicate Uncut(es: seq<Cut>, n: nat) { n <= |es| && forall k :: 0 <= k < n ==> !es[k].reseeds && !es[k].brakes }

  /** Cycle k reseeded the generator at `at`, and no later one up to n reseeded or braked it. */
  predicate StrandedSince(es: seq<Cut>, k: int, n: nat, at: int) {
    && 0 <= k < n <= |es| && es[k].reseeds && es[k].actual == at
    && forall j :: k < j < n ==> !es[j].reseeds && !es[j].brakes
  }

  predicate NeverReseeded(es: seq<Cut>, n: nat) { n <= |es| && forall k :: 0 <= k < n ==> !es[k].reseeds }

  /** Cycle k braked the generator, and no later one up to n reseeded it. */
  predicate BrakedSince(es: seq<Cut>, k: int, n: nat) {
    0 <= k < n <= |es| && es[k].brakes && forall j :: k < j < n ==> !es[j].reseeds
  }

  /** What a course stands for. */
  ghost predicate CourseMeans(es: seq<Cut>, start: Course, n: nat, k: Course)
    requires n <= |es|
  {
    match k
    case UnderWay => start == UnderWay && Uncut(es, n)
    case Stranded(at) => exists j :: StrandedSince(es, j, n, at)
    case Loose => (start == Loose && NeverReseeded(es, n)) || exists j :: BrakedSince(es, j, n)
  }

  lemma {:induction false} CourseMeaning(es: seq<Cut>, start: Course, n: nat)
    requires n <= |es| && !start.Stranded?
    ensures CourseMeans(es, start, n, CourseAt(es, start, n))
  {
    if n > 0 {
      CourseMeaning(es, start, n - 1);
      var before := CourseAt(es, start, n - 1);
      if es[n - 1].reseeds {
        assert StrandedSince(es, n - 1, n, es[n - 1].actual);
      } else if es[n - 1].brakes {
        assert BrakedSince(es, n - 1, n);
      } else if before.Stranded? {
        var k :| StrandedSince(es, k, n - 1, before.at);
        assert StrandedSince(es, k, n, before.at);
      } else if before == Loose && !(start == Loose && NeverReseeded(es, n - 1)) {
        var k :| BrakedSince(es, k, n - 1);
        assert BrakedSince(es, k, n);
      }
    }
  }

  /** The generator was last reseeded at an actual that it still holds at, unmoved since. */
  ghost predicate StrandedAndStill(cfg: Config, es: seq<Cut>, r: Ctl, i: CycleIn, n: nat) {
    exists k, at :: StrandedSince(es, k, n, at) && Arrived(cfg, r, i, at)
  }

  /** Over every run from the adoption on, whatever the lifecycle, statuswords, faults, homing runs, stops and
      other commands: the cycle that publishes the move completed finds the generator holding at the move's
      own target, never reseeded or braked since the adoption; or stranded: still holding at the actual at
      which a cycle outside Operational last reseeded it, the move not run since; or else the move was
      refused when adopted and the generator never reseeded, or the shutdown braked it. In the first two the
      actual is within tolerance of the hold point, the shaft at rest and the drive enabled. Which cycle
      that is, is decided cycle by cycle by LiveMoveCompletesExactly. */
  lemma CompletedHow(cfg: Config, cs: seq<Ctl>, ins: seq<CycleIn>, es: seq<Cut>, g: nat, n: nat)
    requires cfg.Valid() && MoveRun(cfg, cs, ins, g, n) && IsRecord(cfg, cs, ins, es)
    requires cs[n].atoms.completed == g && cs[n - 1].atoms.completed != g
    ensures || (Uncut(es, n) && Arrived(cfg, cs[n], ins[n - 1], MoveTarget(ins)))
            || StrandedAndStill(cfg, es, cs[n], ins[n - 1], n)
            || (!Accepted(cfg, ins[0].batch.setTarget.value) && NeverReseeded(es, n))
            || exists k :: BrakedSince(es, k, n)
  {
    FollowedThroughRun(cfg, cs, ins, es, g, n);
    CourseMeaning(es, StartOf(cfg, ins), n);
    var course := CourseAt(es, StartOf(cfg, ins), n);
    if course.Stranded? {
      var k :| StrandedSince(es, k, n, course.at);
      assert Arrived(cfg, cs[n], ins[n - 1], course.at);
    }
  }

  // --- Operational throughout --------------------------------------------------------------------

  lemma StayingIsUncut(cfg: Config, c: Ctl, i: CycleIn)
    requires cfg.Valid() && !i.stopping && c.life == Operational && Cycle(cfg, c, i).life == Operational
    ensures var e := CutBy(Entered(cfg, c, i), i); !e.reseeds && !e.brakes
  {
    CycleInSteps(cfg, c, i);
    EnteredUntouched(cfg, c, i);
    WhereItEnds(cfg, Entered(cfg, c, i), i);
  }

  lemma NextStaying(cfg: Config, cs: seq<Ctl>, ins: seq<CycleIn>, es: seq<Cut>, k: nat)
    requires cfg.Valid() && IsRun(cfg, cs, ins) && IsRecord(cfg, cs, ins, es) && k < |ins| && !ins[k].stopping
    requires cs[k].life == Operational && cs[k + 1].life == Operational
    ensures !es[k].reseeds && !es[k].brakes
  {
    assert CycleNo(k);
    StayingIsUncut(cfg, cs[k], ins[k]);
  }

  lemma {:induction false} UncutStaysUnderWay(es: seq<Cut>, n: nat)
    requires Uncut(es, n)
    ensures CourseAt(es, UnderWay, n) == UnderWay
  {
    if n > 0 {
      UncutStaysUnderWay(es, n - 1);
    }
  }

  /** Cyclic completion is real: a move adopted in Operational with an accepted speed is, while the controller
      stays Operational, published completed only in a cycle in which the generator holds exactly at the
      move's own target, the actual is within tolerance of it, the shaft has been at rest for the whole
      window and the drive is enabled. Quick-stops, halts, retargets and velocity commands may come at any
      time. */
  lemma CyclicCompletionIsReal(cfg: Config, cs: seq<Ctl>, ins: seq<CycleIn>, es: seq<Cut>, g: nat, n: nat)
    requires cfg.Valid() && MoveRun(cfg, cs, ins, g, n) && IsRecord(cfg, cs, ins, es)
    requires Accepted(cfg, ins[0].batch.setTarget.value)
    requires (forall k :: 0 <= k <= n ==> cs[k].life == Operational) && forall k :: 0 <= k < n ==> !ins[k].stopping
    requires cs[n].atoms.completed == g && cs[n - 1].atoms.completed != g
    ensures Arrived(cfg, cs[n], ins[n - 1], MoveTarget(ins))
  {
    FollowedThroughRun(cfg, cs, ins, es, g, n);
    forall k | 0 <= k < n ensures !es[k].reseeds && !es[k].brakes {
      NextStaying(cfg, cs, ins, es, k);
    }
    UncutStaysUnderWay(es, n);
  }

  // --- a refused move ----------------------------------------------------------------------------

  /** A move the generator refuses leaves it on whatever course it had: the routed mode is the one of a cycle
      that drained no set-point, and the move is published completed exactly when that course ends there. */
  lemma RefusedMoveFollowsOldCourse(cfg: Config, c: Ctl, i: CycleIn, g: nat)
    requires cfg.Valid() && c.motion.Cyclic? && Adopts(c, i, g) && !Accepted(cfg, i.batch.setTarget.value)
    ensures var s := Entered(cfg, c, i);
            && s.motion == Entered(cfg, c, i.(batch := i.batch.(setTarget := None))).motion
            && (Cycle(cfg, c, i).atoms.completed == g <==> CompletesNow(cfg, s, i))
  {
    EnteredUntouched(cfg, c, i);
    RoutedAdopted(cfg, c.(ops := []), i, g);
    RefusedKeepsMode(cfg, c.(ops := []), i);
    LiveMoveCompletesExactly(cfg, c, i, g);
  }

  lemma RefusedKeepsMode(cfg: Config, c: Ctl, i: CycleIn)
    requires c.motion.Cyclic? && i.batch.setTarget.Some? && !Accepted(cfg, i.batch.setTarget.value)
    ensures Route(cfg, c, i).motion == Route(cfg, c, i.(batch := i.batch.(setTarget := None))).motion
  {
    var s, bare := RouteStops(cfg, c, i.batch), i.batch.(setTarget := None);
    StopsUntouched(cfg, c, i.batch);
    var t := RouteTarget(cfg, s, i.batch, i.actual);
    RestUntouched(cfg, t, i.batch);
    RestUntouched(cfg, RouteTarget(cfg, RouteStops(cfg, c, bare), bare, i.actual), bare);
  }
}
