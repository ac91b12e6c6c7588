/** A profile-mode move over whole runs: completed after its whole set-point handshake, or never sent. */
module Completion {
  import opened Cia402
  import opened Sequencer
  import opened MotionMode
  import opened Controller
  import opened OpLog
  import opened CycleSteps
  import opened ProfileMoves

  // --- the record of a run ------------------------------------------------------------------

  /** The mode hands its pending position set-point to the sequencer in this cycle. */
  predicate HandsOver(s: Ctl, i: CycleIn) {
    && s.motion.Profile? && FateOf(s, i) == Runs && s.motion.profile.intent == PROFILE_POSITION
    && s.motion.profile.pending && Echoed(PROFILE_POSITION, i.echo)
  }

  /** What is recorded of a cycle: what happened to the mode's set-point, bit 12 as read, and bit 4 and
      0x607A as shipped. */
  datatype Seen = Seen(handed: bool, reset: bool, replaced: bool, ack: bool, bit4: bool, target: int)

  function SeenIn(s: Ctl, i: CycleIn, image: Image): Seen {
    Seen(HandsOver(s, i), FateOf(s, i) == Dropped, !i.stopping && i.batch.setVelocity.Some?,
         i.status.ack, image.cw.newSetpoint, image.target)
  }

  /** `es` is the record of the run. */
  ghost predicate IsRecord(cfg: Config, cs: seq<Ctl>, ins: seq<CycleIn>, es: seq<Seen>) {
    && |cs| == |ins| + 1 && |es| == |ins|
    && forall k {:trigger CycleNo(k)} :: CycleNo(k) && 0 <= k < |ins| ==>
         es[k] == SeenIn(Entered(cfg, cs[k], ins[k]), ins[k], cs[k + 1].image)
  }

  /** Every run has a record. */
  function Record(cfg: Config, cs: seq<Ctl>, ins: seq<CycleIn>): (es: seq<Seen>)
    requires |cs| == |ins| + 1
    ensures IsRecord(cfg, cs, ins, es)
  {
    seq(|ins|, k requires 0 <= k < |ins| => SeenIn(Entered(cfg, cs[k], ins[k]), ins[k], cs[k + 1].image))
  }

  /** How far the handshake of the set-point `target` has been seen: 0 nothing, 1 bit 4 raised over that
      target, 2 then bit 12 high, 3 then bit 4 dropped, 4 then bit 12 low. */
  function Observe(mark: nat, e: Seen, target: int): nat {
    var seen := if mark == 1 && e.ack then 2 else if mark == 3 && !e.ack then 4 else mark;
    if seen == 0 && e.bit4 && e.target == target then 1
    else if seen == 2 && !e.bit4 then 3
    else seen
  }

  /** The observer's mark after the first n cycles, watching from cycle `from` on. */
  function Mark(es: seq<Seen>, target: int, from: nat, n: nat): nat
    requires n <= |es|
  {
    if n <= from then 0 else Observe(Mark(es, target, from, n - 1), es[n - 1], target)
  }

  /** In cycles from .. n, bit 4 was shipped high over the target. */
  ghost predicate RaisedBefore(es: seq<Seen>, target: int, from: nat, n: nat) {
    exists a :: from <= a < n <= |es| && es[a].bit4 && es[a].target == target
  }

  /** In cycles from .. n, bit 12 was high, in a cycle after bit 4 was raised. */
  ghost predicate AckedBefore(es: seq<Seen>, target: int, from: nat, n: nat) {
    exists b :: from <= b < n <= |es| && es[b].ack && RaisedBefore(es, target, from, b)
  }

  /** In cycles from .. n, bit 4 was shipped low, at or after the acknowledge. */
  ghost predicate DroppedBefore(es: seq<Seen>, target: int, from: nat, n: nat) {
    exists c :: from <= c < n <= |es| && !es[c].bit4 && AckedBefore(es, target, from, c + 1)
  }

  /** In cycles from .. n: bit 4 raised over the target, then bit 12 high, then bit 4 low, then bit 12 low. */
  ghost predicate HandshakeSeen(es: seq<Seen>, target: int, from: nat, n: nat) {
    exists d :: from <= d < n <= |es| && !es[d].ack && DroppedBefore(es, target, from, d)
  }

  /** What a mark stands for. */
  lemma {:induction false} MarkMeaning(es: seq<Seen>, target: int, from: nat, n: nat)
    requires n <= |es|
    ensures var m := Mark(es, target, from, n);
            && m <= 4
            && (m >= 1 ==> RaisedBefore(es, target, from, n))
            && (m >= 2 ==> AckedBefore(es, target, from, n))
            && (m >= 3 ==> DroppedBefore(es, target, from, n))
            && (m == 4 ==> HandshakeSeen(es, target, from, n))
  {
    if n > from {
      MarkMeaning(es, target, from, n - 1);
      var last := es[n - 1];
    }
  }

  // --- one step of the mode --------------------------------------------------------------------

  function Rank(p: Phase): nat {
    match p
    case WriteTarget => 0
    case AwaitAck => 1
    case ClearBit4 => 2
    case AwaitAckClear => 3
    case Idle => 4
  }

  /** The handshake is no further than what has been seen from outside. */
  predicate Backed(h: Handshake, mark: nat) { (h.idle ==> h.phase == Idle) && Rank(h.phase) <= mark }

  lemma ObserveGrows(mark: nat, e: Seen, target: int)
    ensures Observe(mark, e, target) >= mark
    ensures mark <= 4 ==> Observe(mark, e, target) <= 4
  {
  }

  /** The record shows this cycle's bit 12, and the bit 4 and target it ships. */
  predicate Records(e: Seen, ack: bool, image: Image) {
    e.ack == ack && e.bit4 == image.cw.newSetpoint && e.target == image.target
  }

  lemma SequencerBacked(s: SeqState, img: Image, i: SeqIn, cmd: SeqCommand, mark: nat, e: Seen)
    requires !i.stopping && cmd.mode == PROFILE_POSITION && (cmd.newSetpoint || Backed(s.handshake, mark))
    requires Records(e, i.status.ack, Step(s, img, i, cmd).image)
    ensures var out := Step(s, img, i, cmd);
            out.state.handshake.timedOut || Backed(out.state.handshake, Observe(mark, e, cmd.target))
  {
    ObserveGrows(mark, e, cmd.target);
  }

  /** A mode cycle of a position move that is handed over now, or was and is backed: backed after it, unless
      it failed the move. */
  lemma ProfileBacked(m: ProfileMode, img: Image, fb: Feedback, mark: nat, e: Seen)
    requires m.intent == PROFILE_POSITION && Records(e, fb.status.ack, ProfileStep(m, img, fb).image)
    requires if m.pending then Echoed(PROFILE_POSITION, fb.echo) else Backed(m.sequencer.handshake, mark)
    ensures var out := ProfileStep(m, img, fb);
            || ProfileFault(out.mode) != NoFault
            || (&& out.mode.intent == PROFILE_POSITION && out.mode.target == m.target && !out.mode.pending
                && Backed(out.mode.sequencer.handshake, Observe(mark, e, m.target)))
  {
    SequencerBacked(m.sequencer, img, SeqIn(fb.status, fb.echo, false), ProfileCommand(m, fb.echo), mark, e);
  }

  // --- where a move's set-point is ---------------------------------------------------------------

  /** Not with the sequencer (pending, or dropped by a reset of the mode); handed to it, with what has been
      seen of the handshake since; or replaced by a velocity command. */
  datatype Track = Unsent | Sent(mark: nat) | Replaced

  /** A velocity command takes the move's place. */
  function TrackEntered(t: Track, e: Seen): Track { if e.replaced then Replaced else t }

  function TrackStepped(t: Track, e: Seen, target: int): Track {
    if e.reset then Unsent
    else if t == Unsent && e.handed then Sent(Observe(0, e, target))
    else match t
         case Sent(mark) => Sent(Observe(mark, e, target))
         case _ => t
  }

  /** The sequencer has no set-point. */
  predicate Blank(m: ProfileMode) {
    !m.pending && m.sequencer.handshake.phase == Idle && m.sequencer.handshake.idle && m.target == 0
  }

  /** What the track says about the mode while the move is live. */
  predicate Shows(m: ProfileMode, target: int, t: Track) {
    match t
    case Unsent => m.intent == PROFILE_POSITION && ((m.pending && m.target == target) || Blank(m))
    case Sent(mark) =>
      && m.intent == PROFILE_POSITION && !m.pending && m.target == target && mark <= 4
      && Backed(m.sequencer.handshake, mark)
    case Replaced => m.intent != PROFILE_POSITION
  }

  predicate Tracked(c: Ctl, g: nat, target: int, t: Track) {
    c.motion.Profile? && (Live(c.atoms, g) ==> Shows(c.motion.profile, target, t))
  }

  lemma EnteredTracked(cfg: Config, c: Ctl, i: CycleIn, g: nat, target: int, t: Track, image: Image)
    requires g != 0 && Tracked(c, g, target, t) && LeavesAlone(i, g)
    ensures var s := Entered(cfg, c, i); Tracked(s, g, target, TrackEntered(t, SeenIn(s, i, image)))
  {
    EnteredUntouched(cfg, c, i);
    if !i.stopping {
      RoutedLive(cfg, c.(ops := []), i, g);
    }
  }

  lemma AdoptedTracked(cfg: Config, c: Ctl, i: CycleIn, g: nat, image: Image)
    requires c.motion.Profile? && Adopts(c, i, g)
    ensures var s := Entered(cfg, c, i);
            && Tracked(s, g, TargetOf(i.batch.setTarget.value, i.actual), TrackEntered(Unsent, SeenIn(s, i, image)))
            && Live(s.atoms, g)
            && (i.batch.setVelocity.None? ==> s.motion.profile.pending && s.motion.profile.intent == PROFILE_POSITION)
  {
    EnteredUntouched(cfg, c, i);
    RoutedAdopted(cfg, c.(ops := []), i, g);
    StopsUntouched(cfg, c.(ops := []), i.batch);
  }

  /** One Operational cycle of the mode keeps the track, unless it fails the move. */
  lemma RunKeepsTrack(m: ProfileMode, img: Image, fb: Feedback, i: CycleIn, s: Ctl, target: int, t: Track)
    requires Shows(m, target, t) && fb.status == i.status && fb.echo == i.echo
    requires FateOf(s, i) == Runs && s.motion == Profile(m)
    ensures var out := ProfileStep(m, img, fb);
            || ProfileFault(out.mode) != NoFault
            || Shows(out.mode, target, TrackStepped(t, SeenIn(s, i, out.image), target))
  {
    var out := ProfileStep(m, img, fb);
    var e := SeenIn(s, i, out.image);
    ObserveGrows(0, e, target);
    match t
    case Sent(mark) =>
      ObserveGrows(mark, e, target);
      ProfileBacked(m, img, fb, mark, e);
    case Unsent =>
      if HandsOver(s, i) {
        ProfileBacked(m, img, fb, 0, e);
      }
    case Replaced =>
  }

  lemma RunningTracked(cfg: Config, s: Ctl, i: CycleIn, g: nat, target: int, t: Track)
    requires cfg.Valid() && Tracked(s, g, target, t) && FateOf(s, i) == Runs
    ensures var r := StepMotion(cfg, s, i); Tracked(r, g, target, TrackStepped(t, SeenIn(s, i, r.image), target))
  {
    RunShows(cfg, s, i);
    if Live(s.atoms, g) {
      RunKeepsTrack(s.motion.profile, s.image, SeenBy(cfg, s, i), i, s, target, t);
    }
  }

  lemma IdleTracked(cfg: Config, s: Ctl, i: CycleIn, g: nat, target: int, t: Track)
    requires cfg.Valid() && Tracked(s, g, target, t) && FateOf(s, i) in {Waits, Dropped, Stops}
    ensures var r := Stepped(cfg, s, i); Tracked(r, g, target, TrackStepped(t, SeenIn(s, i, r.image), target))
  {
    IdleStepped(cfg, s, i);
    if t.Sent? {
      ObserveGrows(t.mark, SeenIn(s, i, Stepped(cfg, s, i).image), target);
    }
  }

  lemma FailedTracked(cfg: Config, s: Ctl, i: CycleIn, g: nat)
    requires cfg.Valid() && s.motion.Profile? && FateOf(s, i) == Fails
    ensures var r := Stepped(cfg, s, i); r.motion.Profile? && !Live(r.atoms, g)
  {
  }

  lemma SteppedTracked(cfg: Config, s: Ctl, i: CycleIn, g: nat, target: int, t: Track)
    requires cfg.Valid() && Tracked(s, g, target, t)
    ensures var r := Stepped(cfg, s, i); Tracked(r, g, target, TrackStepped(t, SeenIn(s, i, r.image), target))
  {
    match FateOf(s, i)
    case Fails => FailedTracked(cfg, s, i, g);
    case Runs =>
      RunningStepped(cfg, s, i);
      RunningTracked(cfg, s, i, g, target, t);
    case _ => IdleTracked(cfg, s, i, g, target, t);
  }

  /** The publication keeps the track, and completes the move only idle: fully seen, or not sent. */
  lemma PublishTracked(cfg: Config, r: Ctl, i: CycleIn, g: nat, target: int, t: Track)
    requires g != 0 && Tracked(r, g, target, t)
    ensures Tracked(PublishState(cfg, r, i), g, target, t)
    ensures PublishState(cfg, r, i).atoms.completed == g && r.atoms.completed != g ==> t == Sent(4) || t == Unsent
  {
  }

  /** Only the publication completes a move. */
  lemma StepKeepsCompleted(cfg: Config, s: Ctl, i: CycleIn)
    requires cfg.Valid()
    ensures Stepped(cfg, s, i).atoms.completed == s.atoms.completed
  {
    if !i.stopping {
      StepEmitsAtMostOne(cfg, s, i);
    }
  }

  function TrackNext(t: Track, e: Seen, target: int): Track { TrackStepped(TrackEntered(t, e), e, target) }

  /** What one cycle does to the track, and what a completion in it means. */
  predicate Follows(c: Ctl, r: Ctl, g: nat, target: int, u: Track) {
    && Tracked(r, g, target, u)
    && (r.atoms.completed == g && c.atoms.completed != g ==> u == Sent(4) || u == Unsent)
  }

  lemma CycleTracked(cfg: Config, c: Ctl, i: CycleIn, g: nat, target: int, t: Track)
    requires cfg.Valid() && g != 0 && Tracked(Entered(cfg, c, i), g, target, t)
    ensures var r := Cycle(cfg, c, i);
            Follows(c, r, g, target, TrackStepped(t, SeenIn(Entered(cfg, c, i), i, r.image), target))
  {
    var s := Entered(cfg, c, i);
    var r := Stepped(cfg, s, i);
    CycleInSteps(cfg, c, i);
    EnteredUntouched(cfg, c, i);
    SteppedTracked(cfg, s, i, g, target, t);
    StepKeepsCompleted(cfg, s, i);
    PublishTracked(cfg, r, i, g, target, TrackStepped(t, SeenIn(s, i, r.image), target));
  }

  lemma LaterCycle(cfg: Config, c: Ctl, i: CycleIn, g: nat, target: int, t: Track, e: Seen)
    requires cfg.Valid() && g != 0 && Tracked(c, g, target, t) && LeavesAlone(i, g)
    requires e == SeenIn(Entered(cfg, c, i), i, Cycle(cfg, c, i).image)
    ensures Follows(c, Cycle(cfg, c, i), g, target, TrackNext(t, e, target))
  {
    EnteredTracked(cfg, c, i, g, target, t, Cycle(cfg, c, i).image);
    CycleTracked(cfg, c, i, g, target, TrackEntered(t, e));
  }

  lemma FirstCycle(cfg: Config, c: Ctl, i: CycleIn, g: nat, e: Seen)
    requires cfg.Valid() && c.motion.Profile? && Adopts(c, i, g)
    requires e == SeenIn(Entered(cfg, c, i), i, Cycle(cfg, c, i).image)
    ensures var target := TargetOf(i.batch.setTarget.value, i.actual);
            Follows(c, Cycle(cfg, c, i), g, target, TrackNext(Unsent, e, target))
  {
    AdoptedTracked(cfg, c, i, g, Cycle(cfg, c, i).image);
    CycleTracked(cfg, c, i, g, TargetOf(i.batch.setTarget.value, i.actual), TrackEntered(Unsent, e));
  }

  // --- where the set-point is, from the record alone ---------------------------------------------

  /** Where the set-point is after n cycles. */
  function TrackAt(es: seq<Seen>, target: int, n: nat): Track
    requires n <= |es|
  {
    if n == 0 then Unsent else TrackNext(TrackAt(es, target, n - 1), es[n - 1], target)
  }

  /** The set-point was handed over in cycle h, and the mode not reset since. */
  predicate SentSince(es: seq<Seen>, h: int, n: nat) {
    0 <= h < n <= |es| && es[h].handed && forall k :: h < k < n ==> !es[k].reset
  }

  /** Since cycle h, the adoption or the one after a reset of the mode, no set-point was handed over. */
  predicate UnsentSince(es: seq<Seen>, h: int, n: nat) {
    && 0 <= h <= n <= |es| && (h == 0 || es[h - 1].reset)
    && forall k :: h <= k < n ==> !es[k].handed
  }

  /** The set-point was handed over in some cycle, and its whole handshake seen since. */
  ghost predicate SentAndSeen(es: seq<Seen>, target: int, n: nat) {
    exists h :: SentSince(es, h, n) && HandshakeSeen(es, target, h, n)
  }

  /** No set-point was handed over since the adoption or the last reset of the mode. */
  ghost predicate NeverSent(es: seq<Seen>, n: nat) { exists h :: UnsentSince(es, h, n) }

  /** What a track stands for. */
  ghost predicate TrackMeans(es: seq<Seen>, target: int, n: nat, t: Track)
    requires n <= |es|
  {
    match t
    case Sent(mark) => exists h :: SentSince(es, h, n) && mark == Mark(es, target, h, n)
    case Unsent => NeverSent(es, n)
    case Replaced => true
  }

  lemma {:induction false} TrackMeaning(es: seq<Seen>, target: int, n: nat)
    requires n <= |es|
    ensures TrackMeans(es, target, n, TrackAt(es, target, n))
  {
    if n == 0 {
      assert UnsentSince(es, 0, 0);
    } else {
      var before := TrackAt(es, target, n - 1);
      TrackMeaning(es, target, n - 1);
      if es[n - 1].reset {
        assert UnsentSince(es, n, n);
      } else if before.Sent? {
        var h :| SentSince(es, h, n - 1) && before.mark == Mark(es, target, h, n - 1);
        assert SentSince(es, h, n);
      } else if before == Unsent && es[n - 1].handed {
        assert SentSince(es, n - 1, n) && Mark(es, target, n - 1, n - 1) == 0;
      } else if before == Unsent {
        var h :| UnsentSince(es, h, n - 1);
        assert UnsentSince(es, h, n);
      }
    }
  }

  lemma SeenStays(es: seq<Seen>, target: int, from: nat, m: nat, n: nat)
    requires m <= n <= |es| && HandshakeSeen(es, target, from, m)
    ensures HandshakeSeen(es, target, from, n)
  {
  }

  // --- whole runs --------------------------------------------------------------------------------

  /** Generation g is adopted in cycle 0, in any lifecycle state, and not pushed again. */
  ghost predicate MoveRun(cfg: Config, cs: seq<Ctl>, ins: seq<CycleIn>, g: nat, n: nat)
    requires cfg.Valid()
  {
    && IsRun(cfg, cs, ins) && 1 <= n <= |ins|
    && cs[0].motion.Profile? && Adopts(cs[0], ins[0], g)
    && (forall k :: 0 < k < n ==> LeavesAlone(ins[k], g))
  }

  function MoveTarget(ins: seq<CycleIn>): int
    requires ins != [] && ins[0].batch.setTarget.Some?
  {
    TargetOf(ins[0].batch.setTarget.value, ins[0].actual)
  }

  lemma NextLater(cfg: Config, cs: seq<Ctl>, ins: seq<CycleIn>, es: seq<Seen>, g: nat, k: nat, target: int, t: Track)
    requires cfg.Valid() && IsRun(cfg, cs, ins) && IsRecord(cfg, cs, ins, es) && k < |ins|
    requires g != 0 && Tracked(cs[k], g, target, t) && LeavesAlone(ins[k], g)
    ensures Follows(cs[k], cs[k + 1], g, target, TrackNext(t, es[k], target))
  {
    assert CycleNo(k);
    LaterCycle(cfg, cs[k], ins[k], g, target, t, es[k]);
  }

  lemma NextFirst(cfg: Config, cs: seq<Ctl>, ins: seq<CycleIn>, es: seq<Seen>, g: nat)
    requires cfg.Valid() && MoveRun(cfg, cs, ins, g, 1) && IsRecord(cfg, cs, ins, es)
    ensures Follows(cs[0], cs[1], g, MoveTarget(ins), TrackNext(Unsent, es[0], MoveTarget(ins)))
  {
    assert CycleNo(0);
    FirstCycle(cfg, cs[0], ins[0], g, es[0]);
  }

  lemma {:induction false} TrackedThroughRun(cfg: Config, cs: seq<Ctl>, ins: seq<CycleIn>, es: seq<Seen>, g: nat,
                                             n: nat)
    requires cfg.Valid() && MoveRun(cfg, cs, ins, g, n) && IsRecord(cfg, cs, ins, es)
    ensures Follows(cs[n - 1], cs[n], g, MoveTarget(ins), TrackAt(es, MoveTarget(ins), n))
  {
    if n == 1 {
      NextFirst(cfg, cs, ins, es, g);
      assert TrackAt(es, MoveTarget(ins), 0) == Unsent;
    } else {
      TrackedThroughRun(cfg, cs, ins, es, g, n - 1);
      NextLater(cfg, cs, ins, es, g, n - 1, MoveTarget(ins), TrackAt(es, MoveTarget(ins), n - 1));
    }
  }

  /** Over every run from the adoption on, whatever the lifecycle, statuswords, echoes, faults, homing runs,
      stops and other commands: the cycle that publishes the move completed comes either after its set-point
      was handed over and its whole handshake was seen since (its own target shipped with bit 4 raised, bit
      12 high, bit 4 low, bit 12 low), or with no set-point handed over since its adoption or since the
      last reset of the mode. Which cycle that is, is decided cycle by cycle by LiveMoveCompletesExactly. */
  lemma CompletedOrNeverSent(cfg: Config, cs: seq<Ctl>, ins: seq<CycleIn>, es: seq<Seen>, g: nat, n: nat)
    requires cfg.Valid() && MoveRun(cfg, cs, ins, g, n)
    requires cs[n].atoms.completed == g && cs[n - 1].atoms.completed != g
    requires IsRecord(cfg, cs, ins, es)
    ensures SentAndSeen(es, MoveTarget(ins), n) || NeverSent(es, n)
  {
    var target := MoveTarget(ins);
    TrackedThroughRun(cfg, cs, ins, es, g, n);
    TrackMeaning(es, target, n);
    if TrackAt(es, target, n).Sent? {
      var h :| SentSince(es, h, n) && 4 == Mark(es, target, h, n);
      MarkMeaning(es, target, h, n);
    }
  }

  // --- handed over when adopted ------------------------------------------------------------------

  /** A cycle that stays Operational does not reset the mode. */
  lemma StayingKeepsMode(cfg: Config, c: Ctl, i: CycleIn)
    requires cfg.Valid() && !i.stopping && c.life == Operational && Cycle(cfg, c, i).life == Operational
    ensures FateOf(Entered(cfg, c, i), i) == if i.batch.quickStop then Waits else Runs
  {
    CycleInSteps(cfg, c, i);
    EnteredUntouched(cfg, c, i);
    WhereItEnds(cfg, Entered(cfg, c, i), i);
  }

  lemma NextStaying(cfg: Config, cs: seq<Ctl>, ins: seq<CycleIn>, es: seq<Seen>, k: nat)
    requires cfg.Valid() && IsRun(cfg, cs, ins) && IsRecord(cfg, cs, ins, es) && k < |ins| && !ins[k].stopping
    requires cs[k].life == Operational && cs[k + 1].life == Operational
    ensures !es[k].reset
  {
    assert CycleNo(k);
    StayingKeepsMode(cfg, cs[k], ins[k]);
  }

  lemma HandedWhenAdopted(cfg: Config, cs: seq<Ctl>, ins: seq<CycleIn>, es: seq<Seen>, g: nat)
    requires cfg.Valid() && MoveRun(cfg, cs, ins, g, 1) && IsRecord(cfg, cs, ins, es)
    requires Echoed(PROFILE_POSITION, ins[0].echo) && !ins[0].batch.quickStop
    requires cs[0].life == Operational && cs[1].life == Operational
    ensures es[0].handed || es[0].replaced
  {
    assert CycleNo(0);
    StayingKeepsMode(cfg, cs[0], ins[0]);
    AdoptedTracked(cfg, cs[0], ins[0], g, cs[1].image);
  }

  /** Handed over (or replaced) in cycle 0 and the mode not reset since, the move stays sent, or is replaced. */
  lemma {:induction false} SentThroughRecord(es: seq<Seen>, target: int, n: nat)
    requires 1 <= n <= |es| && (es[0].handed || es[0].replaced) && forall k :: 0 <= k < n ==> !es[k].reset
    ensures TrackAt(es, target, n) in {Replaced, Sent(Mark(es, target, 0, n))}
  {
    if n == 1 {
      assert TrackAt(es, target, 0) == Unsent && Mark(es, target, 0, 0) == 0;
    } else {
      SentThroughRecord(es, target, n - 1);
    }
  }

  /** Completion is real: a generation adopted in an Operational cycle that hands it over (the drive echoes
      profile position, no quick-stop) is, while the controller stays Operational, published completed
      only after its own target was shipped with bit 4 raised, bit 12 was read high, bit 4 was shipped
      low and bit 12 was read low, in that order. Halts, retargets, velocity commands, quick-stops and a
      lost echo may come at any later time. */
  lemma {:induction false} CompletionIsReal(cfg: Config, cs: seq<Ctl>, ins: seq<CycleIn>, es: seq<Seen>, g: nat, n: nat)
    requires cfg.Valid() && MoveRun(cfg, cs, ins, g, n) && cs[n].atoms.completed == g && IsRecord(cfg, cs, ins, es)
    requires Echoed(PROFILE_POSITION, ins[0].echo) && !ins[0].batch.quickStop
    requires (forall k :: 0 <= k <= n ==> cs[k].life == Operational) && forall k :: 0 <= k < n ==> !ins[k].stopping
    ensures HandshakeSeen(es, MoveTarget(ins), 0, n)
  {
    var target := MoveTarget(ins);
    if cs[n - 1].atoms.completed == g {
      CompletionIsReal(cfg, cs, ins, es, g, n - 1);
      SeenStays(es, target, 0, n - 1, n);
    } else {
      TrackedThroughRun(cfg, cs, ins, es, g, n);
      HandedWhenAdopted(cfg, cs, ins, es, g);
      forall k | 0 <= k < n ensures !es[k].reset {
        NextStaying(cfg, cs, ins, es, k);
      }
      SentThroughRecord(es, target, n);
      MarkMeaning(es, target, 0, n);
    }
  }

  // --- a timeout fails the move ------------------------------------------------------------------

  predicate TimedOutNow(c: Ctl) { c.motion.Profile? && c.motion.profile.sequencer.handshake.timedOut }

  lemma MotionTimeoutFails(cfg: Config, s: Ctl, i: CycleIn, g: nat)
    requires g != 0 && s.atoms.active == g && s.atoms.completed != g
    ensures TimedOutNow(StepMotion(cfg, s, i)) ==> Dead(StepMotion(cfg, s, i).atoms, g)
    ensures StepMotion(cfg, s, i).atoms.active == g
  {
  }

  lemma PublishKeepsDead(cfg: Config, s: Ctl, i: CycleIn, g: nat)
    requires Dead(s.atoms, g)
    ensures Dead(PublishState(cfg, s, i).atoms, g) && PublishState(cfg, s, i).atoms.active == s.atoms.active
  {
  }

  lemma CycleTimeoutFails(cfg: Config, c: Ctl, i: CycleIn, g: nat)
    requires cfg.Valid() && !i.stopping && g != 0 && c.life == Operational && !i.batch.quickStop
    requires Route(cfg, c.(ops := []), i).atoms.active == g && Route(cfg, c.(ops := []), i).atoms.completed != g
    requires var r := Cycle(cfg, c, i); r.life == Operational && TimedOutNow(r)
    ensures var r := Cycle(cfg, c, i); r.atoms.active == g && r.atoms.failed == g && r.atoms.completed != g
  {
    var s := Route(cfg, c.(ops := []), i);
    MotionTimeoutFails(cfg, s, i, g);
    PublishKeepsDead(cfg, StepMotion(cfg, s, i), i, g);
  }

  lemma NextTimeoutFails(cfg: Config, cs: seq<Ctl>, ins: seq<CycleIn>, g: nat, k: nat)
    requires cfg.Valid() && IsRun(cfg, cs, ins) && k < |ins| && g != 0
    requires cs[k].life == Operational && cs[k + 1].life == Operational && !ins[k].stopping && !ins[k].batch.quickStop
    requires ActiveAfter(ins[k].batch, cs[k].atoms.active) == g
    requires cs[k].atoms.completed != g && TimedOutNow(cs[k + 1])
    ensures cs[k + 1].atoms.failed == g && Dead(cs[k + 1].atoms, g)
  {
    assert CycleNo(k);
    RouteActive(cfg, cs[k].(ops := []), ins[k]);
    CycleTimeoutFails(cfg, cs[k], ins[k], g);
  }

  /** A handshake timeout in Operational fails the generation that is active in that cycle, and no
      later cycle of any kind (fault, homing, shutdown, another move) ever publishes it completed. */
  lemma TimeoutFailsMove(cfg: Config, cs: seq<Ctl>, ins: seq<CycleIn>, g: nat, k: nat, n: nat)
    requires cfg.Valid() && IsRun(cfg, cs, ins) && k < n <= |ins| && g != 0
    requires cs[k].life == Operational && cs[k + 1].life == Operational && !ins[k].stopping && !ins[k].batch.quickStop
    requires ActiveAfter(ins[k].batch, cs[k].atoms.active) == g
    requires cs[k].atoms.completed != g && TimedOutNow(cs[k + 1])
    requires forall j :: k < j < |ins| ==> DoesNotPush(ins[j], g)
    ensures cs[k + 1].atoms.failed == g && cs[n].atoms.completed != g
  {
    NextTimeoutFails(cfg, cs, ins, g, k);
    FirstTerminalWins(cfg, cs, ins, g, k + 1, n);
  }
}
