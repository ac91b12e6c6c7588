/** API calls, the real-time loop and parked waiters as interleaved atomic steps over the shared atomics:
    one motion slot claimed by compare-and-swap, generations, and the wake counter. */
module MoveProtocol {
  import opened Cia402
  import opened Published

  // --- state ------------------------------------------------------------------------------------

  /** Which load of a wait loop comes next. */
  datatype Stage = AtState | AtCompleted | AtActive | AtStopping | AtExited | AtFailed | AtFaulted | Parked

  /** Where a call is; `g` is the generation it drew. */
  datatype Pc =
    | Fresh                                     // about to draw a generation (Stop: to raise the stop flag)
    | LoadSlot(g: nat)
    | SeeCompleted(g: nat, cur: nat)            // the slot held `cur`: is it terminal?
    | SeeFailed(g: nat, cur: nat)
    | Swap(g: nat, cur: nat)                    // about to compare-and-swap `cur` for `g`
    | Refused(g: nat)
    | Submit(g: nat)                            // move: push the set-point
    | Announce(g: nat)                          // home: write the objects and publish Running
    | Begin(g: nat)                             // home: push the start command
    | Sample(g: nat)                            // load the wake counter
    | Await(g: nat, seen: nat, stage: Stage)
    | GiveUp(g: nat)                            // home: publish Failed, no wake
    | Release(g: nat, ok: bool)
    | Ended(g: nat, ok: bool)
    | Waking                                    // Stop: flag raised, wake still owed
    | Stopped

  datatype Kind = Move | Home | Stop

  datatype Call = Call(kind: Kind, pc: Pc)

  /** Generations ever adopted, published completed, and published failed; home generations that were
      announced, and those followed by a published verdict of attained. */
  datatype Ever = Ever(
    adopted: set<nat>,
    completed: set<nat>,
    failed: set<nat>,
    announced: set<nat>,
    attained: set<nat>)

  /** The real-time side: the set-point it drained last, and whether it still owes a wake. */
  datatype Rt = Rt(target: Option<nat>, owed: bool)

  /** `queue` holds the generations of the queued set-points. */
  datatype Shared = Shared(
    next: nat,
    slot: nat,
    wake: nat,
    stopping: bool,
    atoms: Atoms,
    queue: seq<nat>,
    rt: Rt,
    ever: Ever)

  datatype Sys = Sys(sh: Shared, calls: seq<Call>)

  const NO_HISTORY := Ever({}, {}, {}, {}, {})

  function Start(kinds: seq<Kind>): Sys {
    Sys(Shared(0, 0, 0, false, FRESH_ATOMS, [], Rt(None, false), NO_HISTORY),
        seq(|kinds|, i requires 0 <= i < |kinds| => Call(kinds[i], Fresh)))
  }

  // --- the steps of a call -----------------------------------------------------------------------

  /** `choice` covers what the call does not decide: a spurious compare-and-swap failure, a command
      dropped by a full queue, a refused homing object, a spurious wake. */
  function CallStep(sh: Shared, c: Call, choice: bool): (Shared, Call) {
    if c.pc.Await? then (sh, c.(pc := AwaitStep(sh, c.kind, c.pc.g, c.pc.seen, c.pc.stage, choice)))
    else if Holding(c) then CarryStep(sh, c, choice)
    else ClaimStep(sh, c, choice)
  }

  /** Drawing a generation and claiming the slot; or raising the stop flag and waking everyone. */
  function ClaimStep(sh: Shared, c: Call, choice: bool): (Shared, Call) {
    match c.pc
    case Fresh =>
      if c.kind == Stop then (sh.(stopping := true), c.(pc := Waking))
      else (sh.(next := sh.next + 1), c.(pc := LoadSlot(sh.next + 1)))
    case Waking => (sh.(wake := sh.wake + 1), c.(pc := Stopped))
    case LoadSlot(g) => (sh, c.(pc := Inspect(g, sh.slot)))
    case SeeCompleted(g, cur) => (sh, c.(pc := if sh.atoms.completed == cur then Swap(g, cur) else SeeFailed(g, cur)))
    case SeeFailed(g, cur) => (sh, c.(pc := if sh.atoms.failed == cur then Swap(g, cur) else Refused(g)))
    case Swap(g, cur) =>
      if sh.slot == cur && !choice then (sh.(slot := g), c.(pc := if c.kind == Home then Announce(g) else Submit(g)))
      else (sh, c.(pc := Inspect(g, sh.slot)))
    case _ => (sh, c)
  }

  /** What a call that holds the slot does around its wait. */
  function CarryStep(sh: Shared, c: Call, choice: bool): (Shared, Call) {
    match c.pc
    case Submit(g) => (if choice then sh else sh.(queue := sh.queue + [g]), c.(pc := Sample(g)))
    case Announce(g) =>
      if choice then (sh, c.(pc := GiveUp(g)))
      else (sh.(atoms := sh.atoms.(homing := Running), ever := sh.ever.(announced := sh.ever.announced + {g})),
            c.(pc := Begin(g)))
    case Begin(g) => (sh, c.(pc := Sample(g)))
    case Sample(g) => (sh, c.(pc := Await(g, sh.wake, if c.kind == Home then AtState else AtCompleted)))
    case GiveUp(g) => (sh.(atoms := sh.atoms.(homing := Failed)), c.(pc := Release(g, false)))
    case Release(g, ok) => (if sh.slot == g then sh.(slot := 0) else sh, c.(pc := Ended(g, ok)))
    case _ => (sh, c)
  }

  /** A free slot can be taken at once; a held one only after its generation is seen terminal. */
  function Inspect(g: nat, cur: nat): Pc { if cur == 0 then Swap(g, cur) else SeeCompleted(g, cur) }

  /** One load of the wait loop; `Parked` sleeps while the wake counter is the sampled one. */
  function AwaitStep(sh: Shared, kind: Kind, g: nat, seen: nat, stage: Stage, choice: bool): Pc {
    var stopped := if kind == Home then GiveUp(g) else Release(g, false);
    match stage
    case AtState =>
      if sh.atoms.homing != Running then Release(g, sh.atoms.homing == Attained) else Await(g, seen, AtStopping)
    case AtCompleted => if sh.atoms.completed >= g then Ended(g, true) else Await(g, seen, AtActive)
    case AtActive => if sh.atoms.active > g then Ended(g, true) else Await(g, seen, AtStopping)
    case AtStopping => if sh.stopping then stopped else Await(g, seen, AtExited)
    case AtExited => if sh.atoms.rtExited then stopped else Await(g, seen, if kind == Home then Parked else AtFailed)
    case AtFailed => if sh.atoms.failed >= g then Release(g, false) else Await(g, seen, AtFaulted)
    case AtFaulted => if sh.atoms.faulted then Release(g, false) else Await(g, seen, Parked)
    case Parked => if sh.wake != seen || choice then Sample(g) else Await(g, seen, Parked)
  }

  // --- the steps of the real-time loop -----------------------------------------------------------

  /** Record what a publication made terminal. */
  function Recorded(e: Ever, a: Atoms, op: RtOp): Ever {
    match op
    case OpAdopt(g) => e.(adopted := e.adopted + {g})
    case OpAbort => if Bumps(a, op) then e.(failed := e.failed + {a.active}) else e
    case OpComplete => if Bumps(a, op) then e.(completed := e.completed + {a.active}) else e
    case OpVerdict(ok) => if ok then e.(attained := e.attained + e.announced) else e
    case _ => e
  }

  datatype RtAct = Drain | Do(op: RtOp) | Wake

  /** Drain takes the whole queue and keeps its last set-point; Do publishes, and then owes a wake when
      the publication has one. Only the drained set-point can be adopted. */
  function RtStep(sh: Shared, a: RtAct): Shared {
    match a
    case Wake => if sh.rt.owed then sh.(wake := sh.wake + 1, rt := sh.rt.(owed := false)) else sh
    case Drain =>
      if sh.rt.owed then sh
      else sh.(queue := [], rt := sh.rt.(target := if sh.queue == [] then None else Some(sh.queue[|sh.queue| - 1])))
    case Do(op) =>
      if sh.rt.owed || (op.OpAdopt? && sh.rt.target != Some(op.generation)) then sh
      else sh.(atoms := Publish(sh.atoms, op), ever := Recorded(sh.ever, sh.atoms, op),
               rt := sh.rt.(owed := Bumps(sh.atoms, op)))
  }

  datatype Act = Api(call: nat, choice: bool) | Loop(act: RtAct)

  function Next(s: Sys, a: Act): Sys {
    match a
    case Api(t, choice) =>
      if t < |s.calls| then var (sh, c) := CallStep(s.sh, s.calls[t], choice); Sys(sh, s.calls[t := c]) else s
    case Loop(act) => s.(sh := RtStep(s.sh, act))
  }

  function Run(s: Sys, acts: seq<Act>): Sys
    decreases |acts|
  {
    if acts == [] then s else Run(Next(s, acts[0]), acts[1..])
  }

  // --- views of a call ---------------------------------------------------------------------------

  predicate Drew(c: Call) { !c.pc.Fresh? && !c.pc.Waking? && !c.pc.Stopped? }

  function Gen(c: Call): nat
    requires Drew(c)
  {
    c.pc.g
  }

  /** Still before its compare-and-swap (or turned away). */
  predicate Claiming(c: Call) { c.pc.LoadSlot? || c.pc.SeeCompleted? || c.pc.SeeFailed? || c.pc.Swap? || c.pc.Refused? }

  /** From the successful compare-and-swap until the call's own release or its successful return. */
  predicate Holding(c: Call) {
    c.pc.Submit? || c.pc.Announce? || c.pc.Begin? || c.pc.Sample? || c.pc.Await? || c.pc.GiveUp? || c.pc.Release?
  }

  /** The set-point of the call may have reached the queue. */
  predicate Submitted(c: Call) { c.kind == Move && Drew(c) && !Claiming(c) && !c.pc.Submit? }

  predicate TerminalEver(e: Ever, g: nat) { g in e.completed || g in e.failed }

  /** The generation is, or was, in the hands of the real-time loop. */
  predicate Handed(sh: Shared, g: nat) { g in sh.queue || sh.rt.target == Some(g) || g in sh.ever.adopted }

  // --- the invariant -----------------------------------------------------------------------------

  /** First terminal wins, in terms of the history. */
  predicate HistoryOk(a: Atoms, e: Ever) {
    && e.completed !! e.failed && e.completed <= e.adopted && e.failed <= e.adopted
    && 0 !in e.adopted && (a.active != 0 ==> a.active in e.adopted)
    && (if a.completed != 0 then a.completed in e.completed else e.completed == {})
    && (a.failed != 0 ==> a.failed in e.failed)
    && (a.active in e.completed ==> a.completed == a.active)
    && (a.active in e.failed ==> a.failed == a.active)
    && (a.homing == Attained ==> e.announced <= e.attained)
  }

  predicate NoRepeat(q: seq<nat>) { forall j, k :: 0 <= j < k < |q| ==> q[j] != q[k] }

  predicate SharedOk(sh: Shared) {
    && HistoryOk(sh.atoms, sh.ever)
    && sh.slot <= sh.next && NoRepeat(sh.queue)
    && (forall g :: g in sh.queue ==> 1 <= g <= sh.next && g !in sh.ever.adopted && sh.rt.target != Some(g))
    && (forall g :: g in sh.ever.adopted ==> 1 <= g <= sh.next)
    && (sh.rt.target.Some? ==> 1 <= sh.rt.target.value <= sh.next)
    && (sh.rt.target.Some? && sh.rt.target.value in sh.ever.adopted ==> sh.atoms.active == sh.rt.target.value)
  }

  function Rank(s: Stage): nat {
    match s
    case AtState => 0
    case AtCompleted => 0
    case AtActive => 1
    case AtStopping => 2
    case AtExited => 3
    case AtFailed => 4
    case AtFaulted => 5
    case Parked => 6
  }

  /** What the loads behind a move waiter saw is still so, unless the wake counter moved or a wake is owed. */
  predicate MoveWaitOk(sh: Shared, stopPending: bool, g: nat, seen: nat, stage: Stage) {
    && seen <= sh.wake && stage != AtState
    && (seen == sh.wake && !sh.rt.owed ==>
          && (Rank(stage) >= 1 ==> sh.atoms.completed < g)
          && (Rank(stage) >= 4 ==> !sh.atoms.rtExited)
          && (Rank(stage) >= 5 ==> sh.atoms.failed < g)
          && (Rank(stage) >= 6 ==> !sh.atoms.faulted))
    && (seen == sh.wake && Rank(stage) >= 3 && sh.stopping ==> stopPending)
  }

  predicate HomeWaitOk(sh: Shared, stopPending: bool, seen: nat, stage: Stage) {
    && seen <= sh.wake && stage !in {AtCompleted, AtActive, AtFailed, AtFaulted}
    && (seen == sh.wake && !sh.rt.owed ==>
          && (Rank(stage) >= 2 ==> sh.atoms.homing == Running)
          && (Rank(stage) >= 4 ==> !sh.atoms.rtExited))
    && (seen == sh.wake && Rank(stage) >= 3 && sh.stopping ==> stopPending)
  }

  ghost predicate Superseded(e: Ever, g: nat) { exists h :: h in e.adopted && h > g }

  predicate PcFits(c: Call) {
    match c.kind
    case Move =>
      && !c.pc.Announce? && !c.pc.Begin? && !c.pc.GiveUp? && !c.pc.Waking? && !c.pc.Stopped?
      && (c.pc.Release? ==> !c.pc.ok)
    case Home => !c.pc.Submit? && !c.pc.Waking? && !c.pc.Stopped?
    case Stop => c.pc.Fresh? || c.pc.Waking? || c.pc.Stopped?
  }

  /** One call against the shared state. */
  ghost predicate CallOk(sh: Shared, stopPending: bool, c: Call) {
    && PcFits(c)
    && (Drew(c) ==>
          && 1 <= Gen(c) <= sh.next
          && (!Submitted(c) ==> !Handed(sh, Gen(c)))
          && (Claiming(c) ==> sh.slot != Gen(c))
          && (Holding(c) ==> sh.slot == Gen(c) || TerminalEver(sh.ever, Gen(c))))
    && (c.pc.Swap? ==> c.pc.cur == 0 || TerminalEver(sh.ever, c.pc.cur))
    && (c.pc.SeeCompleted? || c.pc.SeeFailed? ==> c.pc.cur != 0)
    && (c.pc.Await? && c.kind == Move ==> MoveWaitOk(sh, stopPending, c.pc.g, c.pc.seen, c.pc.stage))
    && (c.pc.Await? && c.kind == Home ==> HomeWaitOk(sh, stopPending, c.pc.seen, c.pc.stage))
    && (c.pc.Ended? && c.kind == Move && c.pc.ok ==> c.pc.g in sh.ever.completed || Superseded(sh.ever, c.pc.g))
    && (c.kind == Home && (c.pc.Begin? || c.pc.Sample? || c.pc.Await?) ==> c.pc.g in sh.ever.announced)
    && (c.kind == Home && (c.pc.Release? || c.pc.Ended?) && c.pc.ok ==> c.pc.g in sh.ever.attained)
    && (c.pc.Ended? && !(c.kind == Move && c.pc.ok) ==> sh.slot != c.pc.g)
  }

  ghost predicate StopPending(calls: seq<Call>) { exists t :: 0 <= t < |calls| && calls[t].pc.Waking? }

  ghost predicate Distinct(calls: seq<Call>) {
    forall t, u :: 0 <= t < u < |calls| && Drew(calls[t]) && Drew(calls[u]) ==> Gen(calls[t]) != Gen(calls[u])
  }

  ghost predicate Inv(s: Sys) {
    && SharedOk(s.sh)
    && Distinct(s.calls)
    && forall t :: 0 <= t < |s.calls| ==> CallOk(s.sh, StopPending(s.calls), s.calls[t])
  }

  // --- every step keeps it: a call's own step ----------------------------------------------------

  /** How a step of `c` (to `c2`) may change the shared state, as other calls see it. */
  predicate Moves(sh: Shared, sh2: Shared, c: Call, c2: Call) {
    && sh2.rt == sh.rt && sh2.atoms.(homing := sh.atoms.homing) == sh.atoms
    && (sh2.ever == sh.ever
        || (c.pc.Announce? && sh2.atoms.homing == Running
            && sh2.ever == sh.ever.(announced := sh.ever.announced + {Gen(c)})))
    && sh.next <= sh2.next && sh.wake <= sh2.wake
    && (sh2.slot == sh.slot
        || (Drew(c) && sh2.slot == Gen(c) && (sh.slot == 0 || TerminalEver(sh.ever, sh.slot)))
        || (Drew(c) && sh.slot == Gen(c) && sh2.slot == 0))
    && (sh2.queue == sh.queue || (c.pc.Submit? && sh2.queue == sh.queue + [Gen(c)]))
    && (sh2.stopping ==> sh.stopping || c2.pc.Waking?)
    && (sh2.atoms.homing in {sh.atoms.homing, Running} || c.pc.GiveUp?)
    && (c.pc.Waking? ==> sh.wake < sh2.wake)
  }

  lemma ClaimMoves(sh: Shared, pend: bool, c: Call, choice: bool)
    requires SharedOk(sh) && CallOk(sh, pend, c) && !Holding(c)
    ensures var (sh2, c2) := ClaimStep(sh, c, choice); Moves(sh, sh2, c, c2) && SharedOk(sh2)
  {
  }

  lemma CarryMoves(sh: Shared, pend: bool, c: Call, choice: bool)
    requires SharedOk(sh) && CallOk(sh, pend, c) && Holding(c)
    ensures var (sh2, c2) := CarryStep(sh, c, choice); Moves(sh, sh2, c, c2) && SharedOk(sh2)
  {
  }

  lemma OwnMoves(sh: Shared, pend: bool, c: Call, choice: bool)
    requires SharedOk(sh) && CallOk(sh, pend, c)
    ensures var (sh2, c2) := CallStep(sh, c, choice); Moves(sh, sh2, c, c2) && SharedOk(sh2)
  {
    if Holding(c) {
      CarryMoves(sh, pend, c, choice);
    } else {
      ClaimMoves(sh, pend, c, choice);
    }
  }

  lemma MoveLoadOk(sh: Shared, pend: bool, g: nat, seen: nat, stage: Stage, choice: bool)
    requires MoveWaitOk(sh, pend, g, seen, stage) && stage != AtState
    ensures match AwaitStep(sh, Move, g, seen, stage, choice)
            case Await(h, at, next) => h == g && MoveWaitOk(sh, pend, h, at, next)
            case Sample(h) => h == g
            case Release(h, ok) => h == g && !ok
            case Ended(h, ok) => h == g && ok && (sh.atoms.completed >= g || sh.atoms.active > g)
            case _ => false
  {
  }

  lemma OwnMoveAwait(sh: Shared, pend: bool, c: Call, choice: bool)
    requires HistoryOk(sh.atoms, sh.ever) && CallOk(sh, pend, c) && c.pc.Await? && c.kind == Move
    ensures CallOk(sh, pend, c.(pc := AwaitStep(sh, Move, c.pc.g, c.pc.seen, c.pc.stage, choice)))
  {
    var Await(g, seen, stage) := c.pc;
    MoveLoadOk(sh, pend, g, seen, stage, choice);
    var pc := AwaitStep(sh, Move, g, seen, stage, choice);
    if pc.Ended? {
      assert sh.atoms.active > g ==> sh.atoms.active in sh.ever.adopted;
      assert sh.atoms.completed > g ==> sh.atoms.completed in sh.ever.adopted;
    }
  }

  lemma OwnHomeAwait(sh: Shared, pend: bool, c: Call, choice: bool)
    requires HistoryOk(sh.atoms, sh.ever) && CallOk(sh, pend, c) && c.pc.Await? && c.kind == Home
    ensures CallOk(sh, pend, c.(pc := AwaitStep(sh, Home, c.pc.g, c.pc.seen, c.pc.stage, choice)))
  {
  }

  lemma OwnDraw(sh: Shared, pend: bool, pend2: bool, c: Call, choice: bool)
    requires SharedOk(sh) && CallOk(sh, pend, c) && !Drew(c)
    ensures var (sh2, c2) := ClaimStep(sh, c, choice); CallOk(sh2, pend2, c2)
  {
  }

  lemma OwnClaim(sh: Shared, pend: bool, pend2: bool, c: Call, choice: bool)
    requires SharedOk(sh) && CallOk(sh, pend, c) && Claiming(c)
    ensures var (sh2, c2) := ClaimStep(sh, c, choice); CallOk(sh2, pend2, c2)
  {
    assert !Submitted(c) && !Handed(sh, Gen(c)) && sh.slot != Gen(c);
    var (sh2, c2) := ClaimStep(sh, c, choice);
    assert Gen(c2) == Gen(c) && !Submitted(c2) && !c2.pc.Await?;
  }

  lemma OwnCarry(sh: Shared, pend: bool, pend2: bool, c: Call, choice: bool)
    requires CallOk(sh, pend, c) && Holding(c) && !c.pc.Await?
    ensures var (sh2, c2) := CarryStep(sh, c, choice); CallOk(sh2, pend2, c2)
  {
    var (sh2, c2) := CarryStep(sh, c, choice);
    assert Drew(c2) && Gen(c2) == Gen(c) && !Claiming(c2) && sh2.ever.(announced := sh.ever.announced) == sh.ever;
    assert c.kind == Home ==> sh2.queue == sh.queue;
  }

  lemma OwnStep(sh: Shared, pend: bool, pend2: bool, c: Call, choice: bool)
    requires SharedOk(sh) && CallOk(sh, pend, c) && (pend && !c.pc.Waking? ==> pend2)
    ensures var (sh2, c2) := CallStep(sh, c, choice); CallOk(sh2, pend2, c2)
  {
    if c.pc.Await? {
      if c.kind == Move {
        OwnMoveAwait(sh, pend, c, choice);
      } else {
        OwnHomeAwait(sh, pend, c, choice);
      }
      assert pend ==> pend2;
    } else if Holding(c) {
      OwnCarry(sh, pend, pend2, c, choice);
    } else if Claiming(c) {
      OwnClaim(sh, pend, pend2, c, choice);
    } else if !Drew(c) {
      OwnDraw(sh, pend, pend2, c, choice);
    }
  }

  lemma OtherCall(sh: Shared, sh2: Shared, pend: bool, pend2: bool, c: Call, c2: Call, d: Call)
    requires SharedOk(sh) && CallOk(sh, pend, c) && CallOk(sh, pend, d) && Moves(sh, sh2, c, c2)
    requires Drew(c) && Drew(d) ==> Gen(c) != Gen(d)
    requires (pend && !c.pc.Waking?) || c2.pc.Waking? ==> pend2
    ensures CallOk(sh2, pend2, d)
  {
  }

  // --- and a step of the loop --------------------------------------------------------------------

  lemma PublishKeepsHistory(a: Atoms, e: Ever, op: RtOp)
    requires HistoryOk(a, e) && (op.OpAdopt? ==> op.generation != 0)
    requires op.OpAdopt? && op.generation in e.adopted ==> a.active == op.generation
    ensures HistoryOk(Publish(a, op), Recorded(e, a, op))
  {
  }

  lemma DrainKeepsShared(sh: Shared)
    requires SharedOk(sh)
    ensures SharedOk(RtStep(sh, Drain))
  {
    if sh.queue != [] {
      assert sh.queue[|sh.queue| - 1] in sh.queue;
    }
  }

  lemma LoopKeepsShared(sh: Shared, act: RtAct)
    requires SharedOk(sh)
    ensures SharedOk(RtStep(sh, act))
  {
    match act
    case Wake =>
    case Drain => DrainKeepsShared(sh);
    case Do(op) =>
      if !(sh.rt.owed || (op.OpAdopt? && sh.rt.target != Some(op.generation))) {
        PublishKeepsHistory(sh.atoms, sh.ever, op);
        PublishKeepsShared(sh, op);
      }
  }

  lemma PublishKeepsShared(sh: Shared, op: RtOp)
    requires SharedOk(sh) && (op.OpAdopt? ==> sh.rt.target == Some(op.generation))
    requires HistoryOk(Publish(sh.atoms, op), Recorded(sh.ever, sh.atoms, op))
    ensures SharedOk(RtStep(sh, Do(op)))
  {
    var t := RtStep(sh, Do(op));
    assert t.queue == sh.queue && t.rt.target == sh.rt.target && t.next == sh.next && t.slot == sh.slot;
    if !op.OpAdopt? {
      assert t.ever.adopted == sh.ever.adopted && t.atoms.active == sh.atoms.active;
    }
  }

  lemma LoopKeepsCall(sh: Shared, pend: bool, act: RtAct, c: Call)
    requires SharedOk(sh) && CallOk(sh, pend, c)
    ensures CallOk(RtStep(sh, act), pend, c)
  {
    match act
    case Wake =>
    case Drain =>
      if sh.queue != [] {
        assert sh.queue[|sh.queue| - 1] in sh.queue;
      }
    case Do(op) => PublishKeepsCall(sh, pend, op, c);
  }

  lemma PublishKeepsCall(sh: Shared, pend: bool, op: RtOp, c: Call)
    requires SharedOk(sh) && CallOk(sh, pend, c)
    ensures CallOk(RtStep(sh, Do(op)), pend, c)
  {
    var t := RtStep(sh, Do(op));
    assert t.ever.completed >= sh.ever.completed && t.ever.failed >= sh.ever.failed;
    assert t.ever.adopted >= sh.ever.adopted && t.ever.attained >= sh.ever.attained;
    assert t.slot == sh.slot && t.next == sh.next && t.queue == sh.queue && t.rt.target == sh.rt.target;
    if c.pc.Await? {
      PublishKeepsWaiter(sh, pend, op, c);
    } else {
      PublishKeepsIdle(sh, t, pend, c);
    }
  }

  lemma PublishKeepsWaiter(sh: Shared, pend: bool, op: RtOp, c: Call)
    requires SharedOk(sh) && CallOk(sh, pend, c) && c.pc.Await?
    ensures CallOk(RtStep(sh, Do(op)), pend, c)
  {
    var t := RtStep(sh, Do(op));
    assert t.rt.owed || t.atoms.(homing := sh.atoms.homing, active := sh.atoms.active, faulted := sh.atoms.faulted)
                        == sh.atoms.(homing := sh.atoms.homing);
  }

  /** A call that is not waiting sees of a publication only that the history grows. */
  lemma PublishKeepsIdle(sh: Shared, t: Shared, pend: bool, c: Call)
    requires CallOk(sh, pend, c) && !c.pc.Await?
    requires t.ever.completed >= sh.ever.completed && t.ever.failed >= sh.ever.failed
    requires t.ever.attained >= sh.ever.attained && t.ever.announced == sh.ever.announced
    requires t.ever.adopted >= sh.ever.adopted
    requires forall g :: g in t.ever.adopted && g !in sh.ever.adopted ==> sh.rt.target == Some(g)
    requires t.slot == sh.slot && t.next == sh.next && t.queue == sh.queue && t.rt.target == sh.rt.target
    ensures CallOk(t, pend, c)
  {
  }

  // --- all of it, over every schedule ------------------------------------------------------------

  lemma GenerationIsDrawnOnce(sh: Shared, c: Call, choice: bool)
    ensures var (_, c2) := CallStep(sh, c, choice);
            && (Drew(c) ==> Drew(c2) && Gen(c2) == Gen(c))
            && (!Drew(c) && Drew(c2) ==> Gen(c2) == sh.next + 1)
  {
  }

  lemma CallsStayDistinct(s: Sys, t: nat, choice: bool)
    requires Inv(s) && t < |s.calls|
    ensures Distinct(Next(s, Api(t, choice)).calls)
  {
    var c := s.calls[t];
    GenerationIsDrawnOnce(s.sh, c, choice);
    assert forall u :: 0 <= u < |s.calls| && Drew(s.calls[u]) ==> Gen(s.calls[u]) <= s.sh.next;
  }

  lemma PendingAfter(calls: seq<Call>, t: nat, c2: Call)
    requires t < |calls| && ((StopPending(calls) && !calls[t].pc.Waking?) || c2.pc.Waking?)
    ensures StopPending(calls[t := c2])
  {
    if c2.pc.Waking? {
      assert calls[t := c2][t].pc.Waking?;
    } else {
      var u :| 0 <= u < |calls| && calls[u].pc.Waking?;
      assert calls[t := c2][u].pc.Waking?;
    }
  }

  lemma ApiKeepsCall(s: Sys, t: nat, choice: bool, u: nat)
    requires Inv(s) && t < |s.calls| && u < |s.calls|
    ensures var r := Next(s, Api(t, choice)); SharedOk(r.sh) && CallOk(r.sh, StopPending(r.calls), r.calls[u])
  {
    var c := s.calls[t];
    var (sh2, c2) := CallStep(s.sh, c, choice);
    var pend, pend2 := StopPending(s.calls), StopPending(s.calls[t := c2]);
    if (pend && !c.pc.Waking?) || c2.pc.Waking? {
      PendingAfter(s.calls, t, c2);
    }
    OwnMoves(s.sh, pend, c, choice);
    if u == t {
      OwnStep(s.sh, pend, pend2, c, choice);
    } else {
      OtherCall(s.sh, sh2, pend, pend2, c, c2, s.calls[u]);
    }
  }

  lemma ApiKeepsInv(s: Sys, t: nat, choice: bool)
    requires Inv(s) && t < |s.calls|
    ensures Inv(Next(s, Api(t, choice)))
  {
    var r := Next(s, Api(t, choice));
    CallsStayDistinct(s, t, choice);
    ApiKeepsCall(s, t, choice, t);
    forall u | 0 <= u < |r.calls| ensures CallOk(r.sh, StopPending(r.calls), r.calls[u]) {
      ApiKeepsCall(s, t, choice, u);
    }
  }

  lemma NextKeepsInv(s: Sys, a: Act)
    requires Inv(s)
    ensures Inv(Next(s, a))
  {
    match a
    case Api(t, choice) =>
      if t < |s.calls| {
        ApiKeepsInv(s, t, choice);
      }
    case Loop(act) =>
      LoopKeepsShared(s.sh, act);
      forall u | 0 <= u < |s.calls| ensures CallOk(RtStep(s.sh, act), StopPending(s.calls), s.calls[u]) {
        LoopKeepsCall(s.sh, StopPending(s.calls), act, s.calls[u]);
      }
  }

  lemma {:induction false} RunKeepsInv(s: Sys, acts: seq<Act>)
    requires Inv(s)
    ensures Inv(Run(s, acts))
    decreases |acts|
  {
    if acts != [] {
      NextKeepsInv(s, acts[0]);
      RunKeepsInv(Next(s, acts[0]), acts[1..]);
    }
  }

  lemma StartIsOk(kinds: seq<Kind>)
    ensures Inv(Start(kinds))
  {
  }

  /** The state after a schedule from the start of a run. */
  function After(kinds: seq<Kind>, acts: seq<Act>): Sys { Run(Start(kinds), acts) }

  lemma AfterIsOk(kinds: seq<Kind>, acts: seq<Act>)
    ensures Inv(After(kinds, acts))
  {
    StartIsOk(kinds);
    RunKeepsInv(Start(kinds), acts);
  }

  // --- what it gives -----------------------------------------------------------------------------

  /** Single in-flight move: in every interleaving at most one call holds the slot with a generation
      that is not terminal, and that generation is the one in the slot. */
  lemma SingleInFlight(kinds: seq<Kind>, acts: seq<Act>, t: nat, u: nat)
    requires var s := After(kinds, acts);
             && t < |s.calls| && u < |s.calls| && Holding(s.calls[t]) && Holding(s.calls[u])
             && !TerminalEver(s.sh.ever, Gen(s.calls[t])) && !TerminalEver(s.sh.ever, Gen(s.calls[u]))
    ensures t == u && After(kinds, acts).sh.slot == Gen(After(kinds, acts).calls[t])
  {
    AfterIsOk(kinds, acts);
    var s := After(kinds, acts);
    assert s.sh.slot == Gen(s.calls[t]) == Gen(s.calls[u]);
  }

  /** From a successful compare-and-swap until the generation is terminal or its own call lets go, no
      other claim succeeds. */
  lemma NoOtherClaim(kinds: seq<Kind>, acts: seq<Act>, t: nat, u: nat, choice: bool)
    requires var s := After(kinds, acts);
             && t < |s.calls| && u < |s.calls| && t != u
             && Holding(s.calls[u]) && !TerminalEver(s.sh.ever, Gen(s.calls[u])) && Claiming(s.calls[t])
    ensures var r := Next(After(kinds, acts), Api(t, choice));
            Claiming(r.calls[t]) && r.sh.slot == After(kinds, acts).sh.slot
  {
    AfterIsOk(kinds, acts);
    var s := After(kinds, acts);
    assert CallOk(s.sh, StopPending(s.calls), s.calls[t]);
    assert s.sh.slot == Gen(s.calls[u]);
  }

  /** First terminal wins: no generation is ever both completed and failed, and the two published
      numbers are always such generations (or 0). */
  lemma NeverBothTerminal(kinds: seq<Kind>, acts: seq<Act>, g: nat)
    ensures var sh := After(kinds, acts).sh;
            && !(g in sh.ever.completed && g in sh.ever.failed)
            && (g != 0 && sh.atoms.completed == g ==> g in sh.ever.completed)
            && (g != 0 && sh.atoms.failed == g ==> g in sh.ever.failed)
  {
    AfterIsOk(kinds, acts);
  }

  /** The call sleeps on the wake counter: only a bump (or a spurious wake) moves it. */
  predicate Asleep(s: Sys, t: nat) {
    t < |s.calls| && s.calls[t].pc.Await? && s.calls[t].pc.stage == Parked && s.calls[t].pc.seen == s.sh.wake
  }

  /** Every publisher has finished its bump. */
  ghost predicate Settled(s: Sys) { !s.sh.rt.owed && !StopPending(s.calls) }

  /** No lost wakeup: in every interleaving, once every publisher has finished its bump, a sleeping
      waiter has nothing to wake for. */
  lemma NoLostWakeup(kinds: seq<Kind>, acts: seq<Act>, t: nat)
    requires Asleep(After(kinds, acts), t) && Settled(After(kinds, acts))
    ensures var s := After(kinds, acts);
            var a := s.sh.atoms;
            && !s.sh.stopping && !a.rtExited
            && (s.calls[t].kind == Move ==> a.completed < s.calls[t].pc.g && a.failed < s.calls[t].pc.g && !a.faulted)
            && (s.calls[t].kind != Move ==> a.homing == Running)
  {
    AfterIsOk(kinds, acts);
    var s := After(kinds, acts);
    assert CallOk(s.sh, StopPending(s.calls), s.calls[t]);
  }

  /** A move that returned normally completed, or a higher-numbered generation was adopted. */
  lemma SuccessMeansCompletedOrSuperseded(kinds: seq<Kind>, acts: seq<Act>, t: nat)
    requires var s := After(kinds, acts);
             t < |s.calls| && s.calls[t].kind == Move && s.calls[t].pc.Ended? && s.calls[t].pc.ok
    ensures var s := After(kinds, acts);
            s.calls[t].pc.g in s.sh.ever.completed || Superseded(s.sh.ever, s.calls[t].pc.g)
  {
    AfterIsOk(kinds, acts);
    var s := After(kinds, acts);
    assert CallOk(s.sh, StopPending(s.calls), s.calls[t]);
  }

  /** A home call that answered attained was followed, after its own announcement, by a published verdict of
      attained. */
  lemma HomeAnswerIsAttained(kinds: seq<Kind>, acts: seq<Act>, t: nat)
    requires var s := After(kinds, acts);
             t < |s.calls| && s.calls[t].kind == Home && s.calls[t].pc.Ended? && s.calls[t].pc.ok
    ensures var s := After(kinds, acts); s.calls[t].pc.g in s.sh.ever.attained
  {
    AfterIsOk(kinds, acts);
    var s := After(kinds, acts);
    assert CallOk(s.sh, StopPending(s.calls), s.calls[t]);
  }

  /** A home call that ended, whatever its answer, and a move call that ended without success no longer hold
      the slot. */
  lemma EndedLetsGo(kinds: seq<Kind>, acts: seq<Act>, t: nat)
    requires var s := After(kinds, acts);
             t < |s.calls| && s.calls[t].pc.Ended? && !(s.calls[t].kind == Move && s.calls[t].pc.ok)
    ensures var s := After(kinds, acts); s.sh.slot != s.calls[t].pc.g
  {
    AfterIsOk(kinds, acts);
    var s := After(kinds, acts);
    assert CallOk(s.sh, StopPending(s.calls), s.calls[t]);
  }

  // --- what a normal return means, exactly -------------------------------------------------------

  /** `n` steps of one call in a row. */
  function Alone(sh: Shared, c: Call, n: nat): (Shared, Call)
    decreases n
  {
    if n == 0 then (sh, c) else var (sh2, c2) := CallStep(sh, c, false); Alone(sh2, c2, n - 1)
  }

  lemma {:induction false} AloneIsRun(s: Sys, t: nat, n: nat)
    requires t < |s.calls|
    ensures var (sh, c) := Alone(s.sh, s.calls[t], n); Run(s, seq(n, _ => Api(t, false))) == Sys(sh, s.calls[t := c])
    decreases n
  {
    var acts := seq(n, _ => Api(t, false));
    if n > 0 {
      var r := Next(s, Api(t, false));
      AloneIsRun(r, t, n - 1);
      assert acts[1..] == seq(n - 1, _ => Api(t, false));
      assert r.calls[t := Alone(r.sh, r.calls[t], n - 1).1] == s.calls[t := Alone(r.sh, r.calls[t], n - 1).1];
    } else {
      assert s.calls[t := s.calls[t]] == s.calls;
    }
  }

  /** What the wait loop asks of the published numbers before it returns normally. */
  predicate Returns(a: Atoms, g: nat) { a.completed >= g || a.active > g }

  /** Waiting, or giving up; not returned normally. */
  predicate Unreturned(c: Call, g: nat) {
    && c.kind == Move
    && (c.pc == Sample(g) || (c.pc.Await? && c.pc.g == g && c.pc.stage != AtState)
        || c.pc == Release(g, false) || c.pc == Ended(g, false))
  }

  lemma OneUnreturned(sh: Shared, c: Call, g: nat)
    requires !Returns(sh.atoms, g) && Unreturned(c, g)
    ensures var (sh2, c2) := CallStep(sh, c, false); sh2.atoms == sh.atoms && Unreturned(c2, g)
  {
  }

  lemma {:induction false} StaysUnreturned(sh: Shared, c: Call, g: nat, n: nat)
    requires !Returns(sh.atoms, g) && Unreturned(c, g)
    ensures Unreturned(Alone(sh, c, n).1, g)
    decreases n
  {
    if n > 0 {
      OneUnreturned(sh, c, g);
      var (sh2, c2) := CallStep(sh, c, false);
      StaysUnreturned(sh2, c2, g, n - 1);
    }
  }

  lemma {:induction false} StaysEnded(sh: Shared, c: Call, n: nat)
    requires c.pc.Ended?
    ensures Alone(sh, c, n) == (sh, c)
    decreases n
  {
    if n > 0 {
      StaysEnded(sh, c, n - 1);
    }
  }

  /** A waiter at its first check, left alone for any two or more steps, has returned normally exactly when
      its number is not above the completed one or is below the active one. */
  lemma ReturnsExactly(sh: Shared, g: nat, seen: nat, n: nat)
    requires n >= 2
    ensures var waiter := Call(Move, Await(g, seen, AtCompleted));
            Alone(sh, waiter, n).1 == Call(Move, Ended(g, true)) <==> Returns(sh.atoms, g)
  {
    var c := Call(Move, Await(g, seen, AtCompleted));
    var done := Call(Move, Ended(g, true));
    if sh.atoms.completed >= g {
      assert CallStep(sh, c, false) == (sh, done);
      StaysEnded(sh, done, n - 1);
    } else if sh.atoms.active > g {
      var d := Call(Move, Await(g, seen, AtActive));
      assert CallStep(sh, c, false) == (sh, d) && CallStep(sh, d, false) == (sh, done);
      assert Alone(sh, c, n) == Alone(sh, d, n - 1);
      StaysEnded(sh, done, n - 2);
    } else {
      StaysUnreturned(sh, c, g, n);
    }
  }

  /** What makes a move waiter give up. */
  predicate MoveLost(sh: Shared, g: nat) {
    sh.stopping || sh.atoms.rtExited || sh.atoms.failed >= g || sh.atoms.faulted
  }

  /** Left alone for any seven or more steps it has given up exactly when it does not return normally and
      there is something to give up for, and it then holds the slot no more. Otherwise it waits. */
  lemma GivesUpExactly(sh: Shared, g: nat, seen: nat, n: nat)
    requires n >= 7 && g != 0
    ensures var waiter := Call(Move, Await(g, seen, AtCompleted));
            var (r, c) := Alone(sh, waiter, n);
            && (c == Call(Move, Ended(g, false)) <==> !Returns(sh.atoms, g) && MoveLost(sh, g))
            && (c == Call(Move, Ended(g, false)) ==> r == if sh.slot == g then sh.(slot := 0) else sh)
  {
    var c := Call(Move, Await(g, seen, AtCompleted));
    ReturnsExactly(sh, g, seen, n);
    if !Returns(sh.atoms, g) {
      if MoveLost(sh, g) {
        LosesInSix(sh, g, seen, n);
      } else {
        StaysWaiting(sh, c, g, n);
      }
    }
  }

  /** From the first check to the failed answer. */
  lemma LosesInSix(sh: Shared, g: nat, seen: nat, n: nat)
    requires n >= 7 && !Returns(sh.atoms, g) && MoveLost(sh, g)
    ensures Alone(sh, Call(Move, Await(g, seen, AtCompleted)), n)
            == (if sh.slot == g then sh.(slot := 0) else sh, Call(Move, Ended(g, false)))
  {
    var at := (stage: Stage) => Call(Move, Await(g, seen, stage));
    assert Alone(sh, at(AtCompleted), n) == Alone(sh, at(AtActive), n - 1) == Alone(sh, at(AtStopping), n - 2);
    if sh.stopping {
      Frees(sh, Move, g, false, n - 3);
    } else if sh.atoms.rtExited {
      assert Alone(sh, at(AtStopping), n - 2) == Alone(sh, at(AtExited), n - 3);
      Frees(sh, Move, g, false, n - 4);
    } else {
      assert Alone(sh, at(AtStopping), n - 2) == Alone(sh, at(AtExited), n - 3) == Alone(sh, at(AtFailed), n - 4);
      if sh.atoms.failed >= g {
        Frees(sh, Move, g, false, n - 5);
      } else {
        assert Alone(sh, at(AtFailed), n - 4) == Alone(sh, at(AtFaulted), n - 5);
        Frees(sh, Move, g, false, n - 6);
      }
    }
  }

  lemma Frees(sh: Shared, kind: Kind, g: nat, ok: bool, n: nat)
    requires n >= 1
    ensures Alone(sh, Call(kind, Release(g, ok)), n)
            == (if sh.slot == g then sh.(slot := 0) else sh, Call(kind, Ended(g, ok)))
  {
    StaysEnded(if sh.slot == g then sh.(slot := 0) else sh, Call(kind, Ended(g, ok)), n - 1);
  }

  predicate Waits(c: Call, g: nat) { c.pc == Sample(g) || (c.pc.Await? && c.pc.g == g) }

  /** With nothing to return or to give up for, it goes on waiting. */
  lemma {:induction false} StaysWaiting(sh: Shared, c: Call, g: nat, n: nat)
    requires !Returns(sh.atoms, g) && !MoveLost(sh, g) && c.kind == Move && Waits(c, g)
    requires c.pc.Await? ==> c.pc.stage != AtState
    ensures Waits(Alone(sh, c, n).1, g)
    decreases n
  {
    if n > 0 {
      var (sh2, c2) := CallStep(sh, c, false);
      StaysWaiting(sh2, c2, g, n - 1);
    }
  }

  /** The published state says the run is on, but nothing will end it. */
  predicate HomeLost(sh: Shared) { sh.atoms.homing == Running && (sh.stopping || sh.atoms.rtExited) }

  /** A home waiter at its first check, left alone for any five or more steps: it has answered attained exactly
      when the published state is Attained, and failed exactly when that is neither Attained nor Running, or
      when the loop is stopping or gone; giving up publishes Failed. Otherwise it waits, slot in hand. */
  lemma HomeAnswersExactly(sh: Shared, g: nat, seen: nat, n: nat)
    requires n >= 5 && g != 0
    ensures var (r, c) := Alone(sh, Call(Home, Await(g, seen, AtState)), n);
            var homing := sh.atoms.homing;
            && (c == Call(Home, Ended(g, true)) <==> homing == Attained)
            && (c == Call(Home, Ended(g, false)) <==> homing !in {Attained, Running} || HomeLost(sh))
            && (c.pc.Ended? <==> homing != Running || HomeLost(sh)) && (c.pc.Ended? ==> r.slot != g)
            && (!c.pc.Ended? ==> r.slot == sh.slot)
            && r.atoms == sh.atoms.(homing := if HomeLost(sh) then Failed else homing)
  {
    var waiter := Call(Home, Await(g, seen, AtState));
    if sh.atoms.homing != Running {
      var ok := sh.atoms.homing == Attained;
      assert CallStep(sh, waiter, false) == (sh, Call(Home, Release(g, ok)));
      Frees(sh, Home, g, ok, n - 1);
    } else if HomeLost(sh) {
      HomeLosesInFive(sh, g, seen, n);
    } else {
      StaysHoming(sh, waiter, g, n);
    }
  }

  lemma HomeLosesInFive(sh: Shared, g: nat, seen: nat, n: nat)
    requires n >= 5 && HomeLost(sh)
    ensures var failed := sh.(atoms := sh.atoms.(homing := Failed));
            Alone(sh, Call(Home, Await(g, seen, AtState)), n)
            == (if sh.slot == g then failed.(slot := 0) else failed, Call(Home, Ended(g, false)))
  {
    var waiter, stopping := Call(Home, Await(g, seen, AtState)), Call(Home, Await(g, seen, AtStopping));
    var exited, lost := Call(Home, Await(g, seen, AtExited)), Call(Home, GiveUp(g));
    var failed := sh.(atoms := sh.atoms.(homing := Failed));
    assert CallStep(sh, waiter, false) == (sh, stopping);
    assert CallStep(sh, lost, false) == (failed, Call(Home, Release(g, false)));
    assert Alone(sh, waiter, n) == Alone(sh, stopping, n - 1);
    if sh.stopping {
      assert CallStep(sh, stopping, false) == (sh, lost);
      assert Alone(sh, stopping, n - 1) == Alone(sh, lost, n - 2);
      Frees(failed, Home, g, false, n - 3);
    } else {
      assert CallStep(sh, stopping, false) == (sh, exited) && CallStep(sh, exited, false) == (sh, lost);
      assert Alone(sh, stopping, n - 1) == Alone(sh, exited, n - 2) == Alone(sh, lost, n - 3);
      Frees(failed, Home, g, false, n - 4);
    }
  }

  lemma {:induction false} StaysHoming(sh: Shared, c: Call, g: nat, n: nat)
    requires sh.atoms.homing == Running && !HomeLost(sh) && c.kind == Home && Waits(c, g)
    requires c.pc.Await? ==> c.pc.stage in {AtState, AtStopping, AtExited, Parked}
    ensures var (r, d) := Alone(sh, c, n); r == sh && Waits(d, g)
    decreases n
  {
    if n > 0 {
      var (sh2, c2) := CallStep(sh, c, false);
      StaysHoming(sh2, c2, g, n - 1);
    }
  }

  /** A home call whose homing objects are refused ends failed in three steps, with Failed published and the slot
      let go, and without ever having announced the run. */
  lemma RefusedHomeFails(sh: Shared, g: nat)
    requires g != 0
    ensures var (a, c) := CallStep(sh, Call(Home, Announce(g)), true);
            var (r, d) := Alone(a, c, 2);
            && d == Call(Home, Ended(g, false)) && r.slot != g
            && r.atoms == sh.atoms.(homing := Failed) && r.ever == sh.ever
  {
    var failed := sh.(atoms := sh.atoms.(homing := Failed));
    assert CallStep(sh, Call(Home, GiveUp(g)), false) == (failed, Call(Home, Release(g, false)));
    Frees(failed, Home, g, false, 1);
  }

  // --- what a claim gets -------------------------------------------------------------------------

  /** A caller that has just drawn its generation, left alone: refused exactly when the slot is held by a
      generation that is published neither completed nor failed; otherwise it holds the slot. */
  lemma ClaimsExactly(sh: Shared, kind: Kind, g: nat)
    requires kind != Stop && g != 0
    ensures var (r, c) := Alone(sh, Call(kind, LoadSlot(g)), 4);
            var busy := sh.slot != 0 && sh.atoms.completed != sh.slot && sh.atoms.failed != sh.slot;
            && (busy ==> r == sh && c == Call(kind, Refused(g)))
            && (!busy ==> Holding(c) && c.pc.g == g && r.slot == g)
  {
    var load := Call(kind, LoadSlot(g));
    if sh.slot == 0 {
      ClaimsInOne(sh, kind, g, 0, 3);
      assert CallStep(sh, load, false) == (sh, Call(kind, Swap(g, 0)));
    } else {
      var c1, c2 := Call(kind, SeeCompleted(g, sh.slot)), Call(kind, SeeFailed(g, sh.slot));
      assert CallStep(sh, load, false) == (sh, c1);
      assert Alone(sh, load, 4) == Alone(sh, c1, 3);
      if sh.atoms.completed == sh.slot {
        ClaimsInOne(sh, kind, g, sh.slot, 2);
        assert Alone(sh, c1, 3) == Alone(sh, Call(kind, Swap(g, sh.slot)), 2);
      } else {
        assert CallStep(sh, c1, false) == (sh, c2);
        assert Alone(sh, c1, 3) == Alone(sh, c2, 2);
        ClaimsInOne(sh, kind, g, sh.slot, 1);
      }
    }
  }

  lemma ClaimsInOne(sh: Shared, kind: Kind, g: nat, cur: nat, n: nat)
    requires kind != Stop && sh.slot == cur && 1 <= n <= 3
    ensures var (r, c) := Alone(sh, Call(kind, Swap(g, cur)), n); Holding(c) && c.pc.g == g && r.slot == g
  {
    var claimed := sh.(slot := g);
    var c := Call(kind, if kind == Home then Announce(g) else Submit(g));
    assert CallStep(sh, Call(kind, Swap(g, cur)), false) == (claimed, c);
    assert Alone(sh, Call(kind, Swap(g, cur)), n) == Alone(claimed, c, n - 1);
  }

  /** In every reachable state: a waiter about to return normally has its own move completed exactly when
      that is in the history; it can be about to return without only when a higher generation was adopted,
      and it misses its own completion only when a lower generation has completed since. */
  lemma NormalReturnMeaning(kinds: seq<Kind>, acts: seq<Act>, t: nat, n: nat)
    requires n >= 2
    requires var s := After(kinds, acts);
             && t < |s.calls| && s.calls[t].kind == Move
             && s.calls[t].pc.Await? && s.calls[t].pc.stage == AtCompleted
    ensures var s := After(kinds, acts);
            var g := s.calls[t].pc.g;
            var normal := Alone(s.sh, s.calls[t], n).1 == Call(Move, Ended(g, true));
            && (normal <==> Returns(s.sh.atoms, g))
            && (normal && g !in s.sh.ever.completed ==> Superseded(s.sh.ever, g))
            && (!Superseded(s.sh.ever, g) ==>
                  (normal <==> g in s.sh.ever.completed && s.sh.atoms.completed == g))
            && (g in s.sh.ever.completed && !normal ==>
                  && 0 < s.sh.atoms.completed < g && s.sh.atoms.completed in s.sh.ever.completed
                  && s.sh.atoms.active <= g)
  {
    AfterIsOk(kinds, acts);
    var s := After(kinds, acts);
    var Await(g, seen, _) := s.calls[t].pc;
    assert CallOk(s.sh, StopPending(s.calls), s.calls[t]);
    ReturnsExactly(s.sh, g, seen, n);
    var a := s.sh.atoms;
    assert a.active > g ==> a.active in s.sh.ever.adopted;
    assert a.completed > g ==> a.completed in s.sh.ever.adopted;
  }

  // --- three ways it goes wrong, each reached ----------------------------------------------------

  /** Generations are compared by number, and drawing one and claiming the slot are two steps. So a
      caller overtaken between them by a higher generation that completed returns success after six
      steps of its own, whether or not the loop ever saw its set-point. */
  lemma OvertakenCallerReturnsEarly(sh: Shared, g: nat, cur: nat)
    requires sh.slot == cur == sh.atoms.completed && cur != 0 && cur >= g
    ensures var (r, c) := Alone(sh, Call(Move, LoadSlot(g)), 6); c == Call(Move, Ended(g, true)) && r.ever == sh.ever
  {
    OvertakenClaims(sh, g, cur);
    var claimed := sh.(slot := g);
    var (r, c) := Alone(claimed, Call(Move, Submit(g)), 3);
    assert r.ever == sh.ever && c == Call(Move, Ended(g, true));
  }

  lemma OvertakenClaims(sh: Shared, g: nat, cur: nat)
    requires sh.slot == cur == sh.atoms.completed && cur != 0
    ensures Alone(sh, Call(Move, LoadSlot(g)), 6) == Alone(sh.(slot := g), Call(Move, Submit(g)), 3)
  {
    var c1, c2 := Call(Move, SeeCompleted(g, cur)), Call(Move, Swap(g, cur));
    assert CallStep(sh, Call(Move, LoadSlot(g)), false) == (sh, c1);
    assert CallStep(sh, c1, false) == (sh, c2);
    assert CallStep(sh, c2, false) == (sh.(slot := g), Call(Move, Submit(g)));
    assert Alone(sh, Call(Move, LoadSlot(g)), 6) == Alone(sh, c1, 5) == Alone(sh, c2, 4);
  }

  lemma RunFirst(s: Sys, acts: seq<Act>)
    requires acts != []
    ensures Run(s, acts) == Run(Next(s, acts[0]), acts[1..])
  {
  }

  lemma RunFour(s: Sys, acts: seq<Act>)
    requires |acts| >= 4
    ensures Run(s, acts) == Run(Next(Next(Next(Next(s, acts[0]), acts[1]), acts[2]), acts[3]), acts[4..])
  {
    RunFirst(s, acts);
    var s1 := Next(s, acts[0]);
    RunFirst(s1, acts[1..]);
    var s2 := Next(s1, acts[1]);
    RunFirst(s2, acts[2..]);
    RunFirst(Next(s2, acts[2]), acts[3..]);
    assert acts[1..][1..] == acts[2..] && acts[2..][1..] == acts[3..] && acts[3..][1..] == acts[4..];
  }

  /** A schedule of eight actions, in two halves. */
  lemma RunEight(s: Sys, acts: seq<Act>, half: Sys, end: Sys)
    requires |acts| == 8
    requires Next(Next(Next(Next(s, acts[0]), acts[1]), acts[2]), acts[3]) == half
    requires Next(Next(Next(Next(half, acts[4]), acts[5]), acts[6]), acts[7]) == end
    ensures Run(s, acts) == end
  {
    RunFour(s, acts);
    RunFour(half, acts[4..]);
    assert acts[4..][4..] == [];
  }

  lemma {:induction false} RunInTwo(s: Sys, acts: seq<Act>, more: seq<Act>)
    ensures Run(s, acts + more) == Run(Run(s, acts), more)
    decreases |acts|
  {
    if acts == [] {
      assert acts + more == more;
    } else {
      assert (acts + more)[1..] == acts[1..] + more;
      RunInTwo(Next(s, acts[0]), acts[1..], more);
    }
  }

  const BEFORE := Shared(0, 0, 0, false, FRESH_ATOMS, [], Rt(None, false), NO_HISTORY)

  lemma StartOfTwo()
    ensures Start([Move, Move]) == Sys(BEFORE, [Call(Move, Fresh), Call(Move, Fresh)])
  {
    assert Start([Move, Move]).calls == [Call(Move, Fresh), Call(Move, Fresh)];
  }

  /** Second caller draws 2 and its move completes while the first, with 1, has still to claim. */
  const DRAW := Api(0, false)
  const OVERTAKE := [Api(1, false), Api(1, false), Api(1, false), Api(1, false),
                     Loop(Drain), Loop(Do(OpAdopt(2))), Loop(Do(OpComplete)), Loop(Wake)]

  const OVERTAKEN := Sys(
    Shared(2, 2, 1, false, Atoms(2, 2, 0, NeverHomed, false, false), [], Rt(Some(2), false),
           Ever({2}, {2}, {}, {}, {})),
    [Call(Move, LoadSlot(1)), Call(Move, Sample(2))])

  const CLAIMED := Sys(Shared(2, 2, 0, false, FRESH_ATOMS, [2], Rt(None, false), NO_HISTORY),
                       [Call(Move, LoadSlot(1)), Call(Move, Sample(2))])

  lemma OvertakingIsReachable()
    ensures After([Move, Move], [DRAW] + OVERTAKE) == OVERTAKEN
  {
    StartOfTwo();
    var s := Sys(BEFORE.(next := 1), [Call(Move, LoadSlot(1)), Call(Move, Fresh)]);
    assert Next(Start([Move, Move]), DRAW) == s;
    RunFirst(Start([Move, Move]), [DRAW] + OVERTAKE);
    assert ([DRAW] + OVERTAKE)[1..] == OVERTAKE;
    SecondClaims(s);
    SecondCompletes();
    RunEight(s, OVERTAKE, CLAIMED, OVERTAKEN);
  }

  lemma SecondClaims(s: Sys)
    requires s == Sys(BEFORE.(next := 1), [Call(Move, LoadSlot(1)), Call(Move, Fresh)])
    ensures Next(Next(Next(Next(s, Api(1, false)), Api(1, false)), Api(1, false)), Api(1, false)) == CLAIMED
  {
  }

  lemma SecondCompletes()
    ensures Next(Next(Next(Next(CLAIMED, Loop(Drain)), Loop(Do(OpAdopt(2)))), Loop(Do(OpComplete))), Loop(Wake))
            == OVERTAKEN
  {
    assert {} + {2} == {2};
  }

  /** The overtaken caller claims, and its lower generation completes: the second caller's completed move is
      no longer visible to it. */
  const FALL_BACK := [Api(0, false), Api(0, false), Api(0, false), Api(0, false),
                      Loop(Drain), Loop(Do(OpAdopt(1))), Loop(Do(OpComplete)), Loop(Wake)]

  const RECLAIMED := Sys(OVERTAKEN.sh.(slot := 1, queue := [1]), [Call(Move, Sample(1)), Call(Move, Sample(2))])

  const FALLEN_BACK := Sys(
    Shared(2, 1, 2, false, Atoms(1, 1, 0, NeverHomed, false, false), [], Rt(Some(1), false),
           Ever({1, 2}, {1, 2}, {}, {}, {})),
    [Call(Move, Sample(1)), Call(Move, Sample(2))])

  /** A move that completed but is not seen by its own waiter is reached. */
  lemma MissedCompletionIsReachable()
    ensures After([Move, Move], [DRAW] + OVERTAKE + FALL_BACK) == FALLEN_BACK
    ensures 2 in FALLEN_BACK.sh.ever.completed && !Returns(FALLEN_BACK.sh.atoms, 2)
  {
    OvertakingIsReachable();
    RunInTwo(Start([Move, Move]), [DRAW] + OVERTAKE, FALL_BACK);
    FirstReclaims();
    FirstCompletes();
    RunEight(OVERTAKEN, FALL_BACK, RECLAIMED, FALLEN_BACK);
  }

  lemma FirstReclaims()
    ensures Next(Next(Next(Next(OVERTAKEN, Api(0, false)), Api(0, false)), Api(0, false)), Api(0, false)) == RECLAIMED
  {
  }

  lemma FirstCompletes()
    ensures Next(Next(Next(Next(RECLAIMED, Loop(Drain)), Loop(Do(OpAdopt(1)))), Loop(Do(OpComplete))), Loop(Wake))
            == FALLEN_BACK
  {
    assert {2} + {1} == {1, 2};
  }

  /** The first caller waits for 1, which is aborted; before it looks again the second caller reclaims the
      slot with 2, and 2 is adopted. */
  const WAIT := [Api(0, false), Api(0, false), Api(0, false), Api(0, false),
                 Api(0, false), Loop(Drain), Loop(Do(OpAdopt(1))), Loop(Do(OpAbort))]
  const REPLACE := [Loop(Wake), Api(1, false), Api(1, false), Api(1, false),
                    Api(1, false), Api(1, false), Api(1, false), Loop(Drain)]
  const ADOPT := Loop(Do(OpAdopt(2)))

  const QUEUED := Sys(Shared(1, 1, 0, false, FRESH_ATOMS, [1], Rt(None, false), NO_HISTORY),
                      [Call(Move, Sample(1)), Call(Move, Fresh)])
  const ABORTED := Sys(
    Shared(1, 1, 0, false, Atoms(1, 0, 1, NeverHomed, false, false), [], Rt(Some(1), true), Ever({1}, {}, {1}, {}, {})),
    [Call(Move, Await(1, 0, AtCompleted)), Call(Move, Fresh)])
  const LOOKING := Sys(ABORTED.sh.(next := 2, wake := 1, rt := Rt(Some(1), false)),
                       [Call(Move, Await(1, 0, AtCompleted)), Call(Move, SeeFailed(2, 1))])
  const REPLACING := Sys(LOOKING.sh.(slot := 2, rt := Rt(Some(2), false)),
                         [Call(Move, Await(1, 0, AtCompleted)), Call(Move, Sample(2))])
  const REPLACED := Sys(
    REPLACING.sh.(atoms := Atoms(2, 0, 1, NeverHomed, false, false), ever := Ever({1, 2}, {}, {1}, {}, {})),
    REPLACING.calls)

  lemma FirstWaits()
    ensures var s := Sys(BEFORE, [Call(Move, Fresh), Call(Move, Fresh)]);
            Next(Next(Next(Next(s, Api(0, false)), Api(0, false)), Api(0, false)), Api(0, false)) == QUEUED
  {
  }

  lemma FirstAborted()
    ensures Next(Next(Next(Next(QUEUED, Api(0, false)), Loop(Drain)), Loop(Do(OpAdopt(1)))), Loop(Do(OpAbort)))
            == ABORTED
  {
    assert {} + {1} == {1};
  }

  lemma SecondLooks()
    ensures Next(Next(Next(Next(ABORTED, Loop(Wake)), Api(1, false)), Api(1, false)), Api(1, false)) == LOOKING
  {
  }

  lemma SecondReplaces()
    ensures Next(Next(Next(Next(LOOKING, Api(1, false)), Api(1, false)), Api(1, false)), Loop(Drain)) == REPLACING
  {
  }

  lemma SecondAdopted()
    ensures Next(REPLACING, ADOPT) == REPLACED && Run(REPLACING, [ADOPT]) == REPLACED
  {
    assert {1} + {2} == {1, 2};
    RunFirst(REPLACING, [ADOPT]);
    assert [ADOPT][1..] == [];
  }

  lemma ReplacingIsReachable()
    ensures After([Move, Move], WAIT + REPLACE) == REPLACING
  {
    StartOfTwo();
    var s := Start([Move, Move]);
    FirstWaits();
    FirstAborted();
    RunEight(s, WAIT, QUEUED, ABORTED);
    SecondLooks();
    SecondReplaces();
    RunEight(ABORTED, REPLACE, LOOKING, REPLACING);
    RunInTwo(s, WAIT, REPLACE);
  }

  /** A waiter whose move failed and that nevertheless returns normally is reached: it was never overtaken
      before its claim. */
  lemma FailedThenSupersededIsReachable()
    ensures After([Move, Move], WAIT + REPLACE + [ADOPT]) == REPLACED
    ensures REPLACED.calls[0] == Call(Move, Await(1, 0, AtCompleted)) && Returns(REPLACED.sh.atoms, 1)
    ensures REPLACED.sh.atoms.failed == 1 && 1 !in REPLACED.sh.ever.completed
  {
    ReplacingIsReachable();
    SecondAdopted();
    RunInTwo(Start([Move, Move]), WAIT + REPLACE, [ADOPT]);
  }
}
