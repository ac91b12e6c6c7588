/** The Runner's real-time body past realtime setup, interleaved with stop requests from other threads. */
module Runner {

  datatype StopReason = None | Requested | BusFault | BringupAborted

  datatype RunnerPhase = BringingUp | Running | Stopping | Stopped

  /** A hook call on one control. */
  datatype Hook =
    | Staged                 // bring-up gates and staged outputs
    | Operational            // on_operational
    | Stepped(stopping: bool)
    | Told(reason: StopReason) // on_stop

  datatype Event = Event(hook: Hook, control: nat)

  datatype Verdict = InProgress | Reached | Aborted

  /** What the body reads that it does not decide: the bring-up verdict, the give-up clock, the bus
      fault latch and the controls' teardown reports. */
  datatype Reading = Reading(verdict: Verdict, timeout: bool, fault: bool, tornDown: bool)

  /** The next action of the body; sweeps visit the controls in order. */
  datatype Pc =
    | CheckFlag            // bring-up: load the stop flag
    | Staging(i: nat)
    | LatchAbort
    | AbortCheck
    | AbortLatch
    | AbortLoad
    | AbortTelling(i: nat, reason: StopReason)
    | Announcing(i: nat)   // on_operational
    | Process
    | LatchBus
    | RaiseFlag
    | FlagCheck            // steady: load the stop flag
    | LoadReason
    | Telling(i: nat, reason: StopReason)
    | Stepping(i: nat)
    | Finished

  /** A thread inside request_stop: latch the reason, then raise the flag. */
  datatype Requester = Latching | Raising | Asked

  /** `log` lists every hook call; `heard` the reading that ended each bring-up sweep, `faults` the latch as
      loaded after each exchange before the window, `torn` the report that ended each stopping cycle. */
  datatype Rt = Rt(
    pc: Pc,
    stopping: bool,
    left: nat,
    cycle: nat,
    heard: seq<Reading>,
    faults: seq<bool>,
    torn: seq<bool>,
    log: seq<Event>)

  /** `causes` lists every latch attempt in order. */
  datatype Sys = Sys(
    rt: Rt,
    phase: RunnerPhase,
    reason: StopReason,
    flag: bool,
    causes: seq<StopReason>,
    asking: seq<Requester>)

  datatype Config = Config(controls: nat, teardown: nat)
  {
    /** The constructor's floor. */
    predicate Valid() { teardown >= 1 }
  }

  function Start(requesters: nat): Sys {
    Sys(Rt(CheckFlag, false, 0, 0, [], [], [], []), BringingUp, None, false, [], seq(requesters, _ => Latching))
  }

  /** Compare-and-swap from None: the first cause wins. */
  function Latch(s: Sys, r: StopReason): Sys {
    s.(reason := if s.reason == None then r else s.reason, causes := s.causes + [r])
  }

  function At(s: Sys, pc: Pc): Sys { s.(rt := s.rt.(pc := pc)) }

  /** Call the hook on control i and go on. */
  function Visit(s: Sys, hook: Hook, i: nat, pc: Pc): Sys {
    s.(rt := s.rt.(pc := pc, log := s.rt.log + [Event(hook, i)]))
  }

  function Ends(s: Sys): Sys { s.(phase := Stopped, rt := s.rt.(pc := Finished)) }

  // --- the body, one atomic access or hook at a time ---------------------------------------------

  function BringupStep(cfg: Config, s: Sys, x: Reading): Sys {
    match s.rt.pc
    case CheckFlag => At(s, if s.flag then AbortCheck else Staging(0))
    case Staging(i) =>
      if i < cfg.controls then Visit(s, Staged, i, Staging(i + 1))
      else
        var t := s.(rt := s.rt.(heard := s.rt.heard + [x]));
        if x.verdict == Reached then At(t.(phase := Running), Announcing(0))
        else if x.verdict == Aborted || x.timeout then At(t, LatchAbort)
        else At(t, CheckFlag)
    case LatchAbort => At(Latch(s, BringupAborted), AbortCheck)
    case AbortCheck => At(s, if s.reason == None then AbortLatch else AbortLoad)
    case AbortLatch => At(Latch(s, Requested), AbortLoad)
    case AbortLoad => At(s, AbortTelling(0, s.reason))
    case AbortTelling(i, r) => if i < cfg.controls then Visit(s, Told(r), i, AbortTelling(i + 1, r)) else Ends(s)
    case _ => s
  }

  function SteadyStep(cfg: Config, s: Sys, x: Reading): Sys {
    match s.rt.pc
    case Announcing(i) => if i < cfg.controls then Visit(s, Operational, i, Announcing(i + 1)) else At(s, Process)
    case Process =>
      if s.rt.stopping then At(s, Stepping(0))
      else At(s.(rt := s.rt.(faults := s.rt.faults + [x.fault])), if x.fault then LatchBus else FlagCheck)
    case LatchBus => At(Latch(s, BusFault), RaiseFlag)
    case RaiseFlag => At(s.(flag := true), FlagCheck)
    case FlagCheck =>
      if s.flag then s.(phase := Stopping, rt := s.rt.(stopping := true, left := cfg.teardown, pc := LoadReason))
      else At(s, Stepping(0))
    case LoadReason => At(s, Telling(0, s.reason))
    case Telling(i, r) => if i < cfg.controls then Visit(s, Told(r), i, Telling(i + 1, r)) else At(s, Stepping(0))
    case Stepping(i) =>
      if i < cfg.controls then Visit(s, Stepped(s.rt.stopping), i, Stepping(i + 1)) else EndCycle(s, x)
    case _ => s
  }

  function EndCycle(s: Sys, x: Reading): Sys {
    var left := if s.rt.stopping && s.rt.left > 0 then s.rt.left - 1 else s.rt.left;
    var torn := if s.rt.stopping then s.rt.torn + [x.tornDown] else s.rt.torn;
    var t := s.(rt := s.rt.(cycle := s.rt.cycle + 1, left := left, torn := torn));
    if s.rt.stopping && (x.tornDown || t.rt.left == 0) then Ends(t) else At(t, Process)
  }

  predicate InBringup(pc: Pc) {
    || pc.CheckFlag? || pc.Staging? || pc.LatchAbort?
    || pc.AbortCheck? || pc.AbortLatch? || pc.AbortLoad? || pc.AbortTelling?
  }

  function BodyStep(cfg: Config, s: Sys, x: Reading): Sys {
    if InBringup(s.rt.pc) then BringupStep(cfg, s, x) else SteadyStep(cfg, s, x)
  }

  function RequestStep(s: Sys, t: nat): Sys
    requires t < |s.asking|
  {
    match s.asking[t]
    case Latching => Latch(s, Requested).(asking := s.asking[t := Raising])
    case Raising => s.(flag := true, asking := s.asking[t := Asked])
    case Asked => s
  }

  datatype Act = Body(reading: Reading) | Request(thread: nat)

  function Next(cfg: Config, s: Sys, a: Act): Sys {
    match a
    case Body(x) => BodyStep(cfg, s, x)
    case Request(t) => if t < |s.asking| then RequestStep(s, t) else s
  }

  function Run(cfg: Config, s: Sys, acts: seq<Act>): Sys
    decreases |acts|
  {
    if acts == [] then s else Run(cfg, Next(cfg, s, acts[0]), acts[1..])
  }

  // --- the shape of the hook log -----------------------------------------------------------------

  /** `base`, then the hook on the first n controls in order. */
  function Sweep(base: seq<Event>, hook: Hook, n: nat): seq<Event> {
    if n == 0 then base else Sweep(base, hook, n - 1) + [Event(hook, n - 1)]
  }

  /** `base`, then k sweeps of the hook over all n controls. */
  function Sweeps(base: seq<Event>, hook: Hook, n: nat, k: nat): seq<Event> {
    if k == 0 then base else Sweep(Sweeps(base, hook, n, k - 1), hook, n)
  }

  /** b bring-up cycles. */
  function Attempted(cfg: Config, b: nat): seq<Event> { Sweeps([], Staged, cfg.controls, b) }

  /** b bring-up cycles, then Operational, then k steady cycles. */
  function Served(cfg: Config, b: nat, k: nat): seq<Event> {
    Sweeps(Sweep(Attempted(cfg, b), Operational, cfg.controls), Stepped(false), cfg.controls, k)
  }

  /** ... then every control told the reason once, then m stopping cycles. */
  function Closed(cfg: Config, b: nat, k: nat, r: StopReason, m: nat): seq<Event> {
    Sweeps(Sweep(Served(cfg, b, k), Told(r), cfg.controls), Stepped(true), cfg.controls, m)
  }

  // --- what the readings say ---------------------------------------------------------------------

  predicate Pending(x: Reading) { x.verdict == InProgress && !x.timeout }

  predicate GivesUp(x: Reading) { x.verdict == Aborted || (x.verdict == InProgress && x.timeout) }

  predicate AllPending(heard: seq<Reading>) { forall j :: 0 <= j < |heard| ==> Pending(heard[j]) }

  /** The last bring-up reading is Reached and the first to be anything but pending. */
  predicate CameUp(heard: seq<Reading>) {
    heard != [] && AllPending(heard[..|heard| - 1]) && heard[|heard| - 1].verdict == Reached
  }

  /** The last bring-up reading is an abort or a timeout, and the first to be anything but pending. */
  predicate GaveUp(heard: seq<Reading>) {
    heard != [] && AllPending(heard[..|heard| - 1]) && GivesUp(heard[|heard| - 1])
  }

  predicate AllFalse(bs: seq<bool>) { forall j :: 0 <= j < |bs| ==> !bs[j] }

  /** Nothing before the last. */
  predicate LastAtMost(bs: seq<bool>) { bs != [] && AllFalse(bs[..|bs| - 1]) }

  predicate EndsTrue(bs: seq<bool>) { bs != [] && bs[|bs| - 1] }

  /** The log while bringing up, or after bring-up was given up. */
  predicate BringupShape(cfg: Config, s: Sys) {
    var b, heard := |s.rt.heard|, s.rt.heard;
    && !s.rt.stopping && s.rt.cycle == 0 && s.rt.faults == [] && s.rt.torn == [] && s.phase == BringingUp
    && match s.rt.pc
       case CheckFlag => s.rt.log == Attempted(cfg, b) && AllPending(heard)
       case Staging(i) => i <= cfg.controls && s.rt.log == Sweep(Attempted(cfg, b), Staged, i) && AllPending(heard)
       case LatchAbort => s.rt.log == Attempted(cfg, b) && GaveUp(heard)
       case AbortTelling(i, r) =>
         && i <= cfg.controls && r == s.reason != None && s.rt.log == Sweep(Attempted(cfg, b), Told(r), i)
         && (GaveUp(heard) || (AllPending(heard) && s.flag))
       case AbortLatch => false
       case _ => s.reason != None && s.rt.log == Attempted(cfg, b) && (GaveUp(heard) || (AllPending(heard) && s.flag))
  }

  /** The log before the stopping window: one fault reading per cycle, none of them true before the last. */
  predicate ServingShape(cfg: Config, s: Sys) {
    var b, k, faults := |s.rt.heard|, s.rt.cycle, s.rt.faults;
    && CameUp(s.rt.heard) && s.rt.torn == [] && s.phase == Running
    && match s.rt.pc
       case Announcing(i) =>
         i <= cfg.controls && k == 0 && s.rt.log == Sweep(Attempted(cfg, b), Operational, i) && faults == []
       case Stepping(i) =>
         && i <= cfg.controls && s.rt.log == Sweep(Served(cfg, b, k), Stepped(false), i)
         && |faults| == k + 1 && AllFalse(faults)
       case RaiseFlag =>
         && s.reason != None && s.rt.log == Served(cfg, b, k)
         && |faults| == k + 1 && LastAtMost(faults) && EndsTrue(faults)
       case Process => s.rt.log == Served(cfg, b, k) && |faults| == k && AllFalse(faults)
       case LatchBus => s.rt.log == Served(cfg, b, k) && |faults| == k + 1 && LastAtMost(faults) && EndsTrue(faults)
       case FlagCheck =>
         && s.rt.log == Served(cfg, b, k) && |faults| == k + 1 && LastAtMost(faults)
         && (EndsTrue(faults) ==> s.flag)
       case _ => false
  }

  /** Stopping cycles so far. */
  function Spent(cfg: Config, s: Sys): int { cfg.teardown - s.rt.left }

  /** Before the window: the cycles whose fault reading let the body go on. */
  function Steady(rt: Rt): int { |rt.faults| - 1 }

  /** The log inside the stopping window. */
  predicate ClosingShape(cfg: Config, s: Sys) {
    var b, m := |s.rt.heard|, |s.rt.torn|;
    && CameUp(s.rt.heard) && LastAtMost(s.rt.faults) && AllFalse(s.rt.torn) && s.phase == Stopping && s.flag
    && s.reason != None && m == Spent(cfg, s) && s.rt.cycle == Steady(s.rt) + m
    && var k := Steady(s.rt);
       match s.rt.pc
       case LoadReason => m == 0 && s.rt.log == Served(cfg, b, k)
       case Telling(i, r) =>
         m == 0 && i <= cfg.controls && r == s.reason && s.rt.log == Sweep(Served(cfg, b, k), Told(r), i)
       case Stepping(i) =>
         i <= cfg.controls && s.rt.left >= 1 && s.rt.log == Sweep(Closed(cfg, b, k, s.reason, m), Stepped(true), i)
       case Process => s.rt.left >= 1 && s.rt.log == Closed(cfg, b, k, s.reason, m)
       case _ => false
  }

  /** Bring-up was given up or asked to stop. */
  predicate NeverServed(cfg: Config, s: Sys) {
    && s.rt.log == Sweep(Attempted(cfg, |s.rt.heard|), Told(s.reason), cfg.controls)
    && s.rt.faults == [] && s.rt.torn == []
    && (GaveUp(s.rt.heard) || (AllPending(s.rt.heard) && s.flag))
  }

  /** The body served and was stopped: the window ended with the first complete teardown report, or was full. */
  predicate ServedAndClosed(cfg: Config, s: Sys) {
    && CameUp(s.rt.heard) && LastAtMost(s.rt.faults) && s.flag
    && LastAtMost(s.rt.torn) && |s.rt.torn| <= cfg.teardown && (EndsTrue(s.rt.torn) || |s.rt.torn| == cfg.teardown)
    && s.rt.log == Closed(cfg, |s.rt.heard|, Steady(s.rt), s.reason, |s.rt.torn|)
  }

  predicate FinishedShape(cfg: Config, s: Sys) {
    s.reason != None && s.phase == Stopped && (NeverServed(cfg, s) || ServedAndClosed(cfg, s))
  }

  predicate Shape(cfg: Config, s: Sys) {
    if s.rt.pc == Finished then FinishedShape(cfg, s)
    else if InBringup(s.rt.pc) then BringupShape(cfg, s)
    else if s.rt.stopping then ClosingShape(cfg, s)
    else ServingShape(cfg, s)
  }

  /** The reason is the first cause; a raised flag (or a pending raise) has one. */
  predicate FirstCause(s: Sys) {
    && (forall k :: 0 <= k < |s.causes| ==> s.causes[k] != None)
    && s.reason == (if s.causes == [] then None else s.causes[0])
    && (s.flag ==> s.reason != None)
    && (forall t :: 0 <= t < |s.asking| && s.asking[t] != Latching ==> s.reason != None)
  }

  predicate AskedFor(s: Sys) { exists t :: 0 <= t < |s.asking| && s.asking[t] != Latching }

  predicate Raised(s: Sys) { exists t :: 0 <= t < |s.asking| && s.asking[t] == Asked }

  /** Every cause latched has its event, and every event its cause; the same for the flag. */
  predicate CausesAreEvents(s: Sys) {
    && (BringupAborted in s.causes <==> GaveUp(s.rt.heard) && s.rt.pc != LatchAbort)
    && (BusFault in s.causes <==> EndsTrue(s.rt.faults) && s.rt.pc != LatchBus)
    && (Requested in s.causes <==> AskedFor(s))
    && (s.flag <==> Raised(s) || (EndsTrue(s.rt.faults) && s.rt.pc != LatchBus && s.rt.pc != RaiseFlag))
  }

  predicate Inv(cfg: Config, s: Sys) { FirstCause(s) && CausesAreEvents(s) && Shape(cfg, s) }

  // --- every step keeps it -----------------------------------------------------------------------

  lemma OneMoreHeard(heard: seq<Reading>, x: Reading)
    requires AllPending(heard)
    ensures AllPending(heard + [x]) <==> Pending(x)
    ensures CameUp(heard + [x]) <==> x.verdict == Reached
    ensures GaveUp(heard + [x]) <==> GivesUp(x)
  {
    var h := heard + [x];
    assert h[..|h| - 1] == heard && h[|h| - 1] == x;
    assert Pending(x) ==> forall j :: 0 <= j < |h| ==> j < |heard| || h[j] == x;
  }

  lemma SweepEndKeepsShape(cfg: Config, s: Sys, x: Reading)
    requires BringupShape(cfg, s) && s.rt.pc == Staging(cfg.controls)
    ensures Shape(cfg, BringupStep(cfg, s, x))
  {
    OneMoreHeard(s.rt.heard, x);
    assert s.rt.log == Attempted(cfg, |s.rt.heard| + 1);
  }

  lemma AttemptKeepsShape(cfg: Config, s: Sys, x: Reading)
    requires FirstCause(s) && BringupShape(cfg, s) && (s.rt.pc == CheckFlag || s.rt.pc.Staging?)
    ensures Shape(cfg, BringupStep(cfg, s, x))
  {
    if s.rt.pc == Staging(cfg.controls) {
      SweepEndKeepsShape(cfg, s, x);
    }
  }

  lemma AbortKeepsShape(cfg: Config, s: Sys, x: Reading)
    requires BringupShape(cfg, s) && InBringup(s.rt.pc) && s.rt.pc != CheckFlag && !s.rt.pc.Staging?
    ensures Shape(cfg, BringupStep(cfg, s, x))
  {
  }

  lemma BringupKeepsShape(cfg: Config, s: Sys, x: Reading)
    requires FirstCause(s) && InBringup(s.rt.pc) && BringupShape(cfg, s)
    ensures Shape(cfg, BringupStep(cfg, s, x))
  {
    if s.rt.pc == CheckFlag || s.rt.pc.Staging? {
      AttemptKeepsShape(cfg, s, x);
    } else {
      AbortKeepsShape(cfg, s, x);
    }
  }

  lemma ServingKeepsShape(cfg: Config, s: Sys, x: Reading)
    requires cfg.Valid() && FirstCause(s) && ServingShape(cfg, s) && !s.rt.stopping
    ensures Shape(cfg, SteadyStep(cfg, s, x))
  {
    match s.rt.pc
    case Process => ExchangeKeepsShape(cfg, s, x);
    case FlagCheck => CheckKeepsShape(cfg, s, x);
    case LatchBus => RaisingKeepsShape(cfg, s, x);
    case RaiseFlag => RaisingKeepsShape(cfg, s, x);
    case _ => SweepingKeepsShape(cfg, s, x);
  }

  lemma ExchangeKeepsShape(cfg: Config, s: Sys, x: Reading)
    requires ServingShape(cfg, s) && !s.rt.stopping && s.rt.pc == Process
    ensures Shape(cfg, SteadyStep(cfg, s, x))
  {
    var r := SteadyStep(cfg, s, x);
    assert r.rt.faults[..|r.rt.faults| - 1] == s.rt.faults;
  }

  lemma CheckKeepsShape(cfg: Config, s: Sys, x: Reading)
    requires FirstCause(s) && ServingShape(cfg, s) && !s.rt.stopping && s.rt.pc == FlagCheck
    ensures Shape(cfg, SteadyStep(cfg, s, x))
  {
  }

  lemma RaisingKeepsShape(cfg: Config, s: Sys, x: Reading)
    requires ServingShape(cfg, s) && !s.rt.stopping && (s.rt.pc == LatchBus || s.rt.pc == RaiseFlag)
    ensures Shape(cfg, SteadyStep(cfg, s, x))
  {
  }

  lemma SweepingKeepsShape(cfg: Config, s: Sys, x: Reading)
    requires ServingShape(cfg, s) && !s.rt.stopping && (s.rt.pc.Announcing? || s.rt.pc.Stepping?)
    ensures Shape(cfg, SteadyStep(cfg, s, x))
  {
  }

  lemma EndKeepsShape(cfg: Config, s: Sys, x: Reading)
    requires cfg.Valid() && ClosingShape(cfg, s) && s.rt.stopping && s.rt.pc == Stepping(cfg.controls)
    ensures Shape(cfg, EndCycle(s, x))
  {
    var m := |s.rt.torn|;
    assert s.rt.log == Closed(cfg, |s.rt.heard|, Steady(s.rt), s.reason, m + 1);
  }

  lemma ClosingKeepsShape(cfg: Config, s: Sys, x: Reading)
    requires cfg.Valid() && ClosingShape(cfg, s) && s.rt.stopping
    ensures Shape(cfg, SteadyStep(cfg, s, x))
  {
    if s.rt.pc.Stepping? && s.rt.pc.i == cfg.controls {
      EndKeepsShape(cfg, s, x);
    }
  }

  lemma LatchKeepsFirst(s: Sys, r: StopReason)
    requires FirstCause(s) && r != None
    ensures FirstCause(Latch(s, r)) && Latch(s, r).reason != None
    ensures s.reason != None ==> Latch(s, r).reason == s.reason
  {
  }

  lemma BringupKeepsFirst(cfg: Config, s: Sys, x: Reading)
    requires FirstCause(s)
    ensures var r := BringupStep(cfg, s, x); FirstCause(r) && (s.reason != None ==> r.reason == s.reason)
  {
    LatchKeepsFirst(s, BringupAborted);
    LatchKeepsFirst(s, Requested);
  }

  lemma SteadyKeepsFirst(cfg: Config, s: Sys, x: Reading)
    requires FirstCause(s) && (s.rt.pc == RaiseFlag ==> s.reason != None)
    ensures var r := SteadyStep(cfg, s, x); FirstCause(r) && (s.reason != None ==> r.reason == s.reason)
  {
    LatchKeepsFirst(s, BusFault);
  }

  lemma NextKeepsFirst(cfg: Config, s: Sys, a: Act)
    requires FirstCause(s) && (s.rt.pc == RaiseFlag ==> s.reason != None)
    ensures FirstCause(Next(cfg, s, a))
    ensures s.reason != None ==> Next(cfg, s, a).reason == s.reason
  {
    match a
    case Body(x) =>
      BringupKeepsFirst(cfg, s, x);
      SteadyKeepsFirst(cfg, s, x);
    case Request(t) => LatchKeepsFirst(s, Requested);
  }

  /** A reason written while no hook is between its load and its call leaves the shape alone. */
  lemma RequestKeepsShape(cfg: Config, s: Sys, t: nat)
    requires Inv(cfg, s) && t < |s.asking|
    ensures Shape(cfg, RequestStep(s, t))
  {
    var r := RequestStep(s, t);
    assert r.rt == s.rt && r.phase == s.phase && (s.reason != None ==> r.reason == s.reason);
  }

  lemma BringupKeepsCauses(cfg: Config, s: Sys, x: Reading)
    requires CausesAreEvents(s) && InBringup(s.rt.pc) && BringupShape(cfg, s)
    ensures CausesAreEvents(BringupStep(cfg, s, x))
  {
    var r := BringupStep(cfg, s, x);
    assert r.rt.faults == s.rt.faults == [] && r.asking == s.asking && r.flag == s.flag;
    SameAsking(s, r);
    if s.rt.pc == Staging(cfg.controls) {
      OneMoreHeard(s.rt.heard, x);
    } else {
      assert r.rt.heard == s.rt.heard;
    }
  }

  lemma SameAsking(s: Sys, r: Sys)
    requires r.asking == s.asking
    ensures AskedFor(r) == AskedFor(s) && Raised(r) == Raised(s)
  {
  }

  lemma SteadyKeepsCauses(cfg: Config, s: Sys, x: Reading)
    requires CausesAreEvents(s) && !InBringup(s.rt.pc) && s.rt.pc != Finished
    requires if s.rt.stopping then ClosingShape(cfg, s) else ServingShape(cfg, s)
    ensures CausesAreEvents(SteadyStep(cfg, s, x))
  {
    var r := SteadyStep(cfg, s, x);
    assert r.asking == s.asking && r.rt.heard == s.rt.heard;
    SameAsking(s, r);
  }

  lemma RequestKeepsCauses(s: Sys, t: nat)
    requires CausesAreEvents(s) && t < |s.asking|
    ensures CausesAreEvents(RequestStep(s, t))
  {
    var r := RequestStep(s, t);
    assert r.rt == s.rt;
    assert s.asking[t] != Asked ==> r.asking[t] != Latching;
    assert forall u :: 0 <= u < |s.asking| && u != t ==> r.asking[u] == s.asking[u];
  }

  lemma NextKeepsCauses(cfg: Config, s: Sys, a: Act)
    requires Inv(cfg, s)
    ensures CausesAreEvents(Next(cfg, s, a))
  {
    match a
    case Body(x) =>
      if InBringup(s.rt.pc) {
        BringupKeepsCauses(cfg, s, x);
      } else if s.rt.pc != Finished {
        SteadyKeepsCauses(cfg, s, x);
      }
    case Request(t) =>
      if t < |s.asking| {
        RequestKeepsCauses(s, t);
      }
  }

  lemma NextKeepsInv(cfg: Config, s: Sys, a: Act)
    requires cfg.Valid() && Inv(cfg, s)
    ensures Inv(cfg, Next(cfg, s, a))
  {
    NextKeepsFirst(cfg, s, a);
    NextKeepsCauses(cfg, s, a);
    match a
    case Body(x) =>
      if s.rt.pc != Finished {
        if InBringup(s.rt.pc) {
          BringupKeepsShape(cfg, s, x);
        } else if s.rt.stopping {
          ClosingKeepsShape(cfg, s, x);
        } else {
          ServingKeepsShape(cfg, s, x);
        }
      }
    case Request(t) =>
      if t < |s.asking| {
        RequestKeepsShape(cfg, s, t);
      }
  }

  lemma {:induction false} RunKeepsInv(cfg: Config, s: Sys, acts: seq<Act>)
    requires cfg.Valid() && Inv(cfg, s)
    ensures Inv(cfg, Run(cfg, s, acts))
    ensures s.reason != None ==> Run(cfg, s, acts).reason == s.reason
    decreases |acts|
  {
    if acts != [] {
      NextKeepsInv(cfg, s, acts[0]);
      NextKeepsFirst(cfg, s, acts[0]);
      RunKeepsInv(cfg, Next(cfg, s, acts[0]), acts[1..]);
    }
  }

  // --- what it gives, over every interleaving ----------------------------------------------------

  function After(cfg: Config, requesters: nat, acts: seq<Act>): Sys { Run(cfg, Start(requesters), acts) }

  lemma AfterIsOk(cfg: Config, requesters: nat, acts: seq<Act>)
    requires cfg.Valid()
    ensures Inv(cfg, After(cfg, requesters, acts))
  {
    RunKeepsInv(cfg, Start(requesters), acts);
  }

  lemma {:induction false} RunInTwo(cfg: Config, s: Sys, acts: seq<Act>, more: seq<Act>)
    ensures Run(cfg, s, acts + more) == Run(cfg, Run(cfg, s, acts), more)
    decreases |acts|
  {
    if acts == [] {
      assert acts + more == more;
    } else {
      assert (acts + more)[1..] == acts[1..] + more;
      RunInTwo(cfg, Next(cfg, s, acts[0]), acts[1..], more);
    }
  }

  /** The reason is the first cause anyone latched, and once written it never changes. */
  lemma ReasonIsWrittenOnce(cfg: Config, requesters: nat, acts: seq<Act>, more: seq<Act>)
    requires cfg.Valid()
    ensures var s := After(cfg, requesters, acts); s.reason == if s.causes == [] then None else s.causes[0]
    ensures var s := After(cfg, requesters, acts);
            s.reason != None ==> After(cfg, requesters, acts + more).reason == s.reason
  {
    AfterIsOk(cfg, requesters, acts);
    RunInTwo(cfg, Start(requesters), acts, more);
    RunKeepsInv(cfg, After(cfg, requesters, acts), more);
  }

  /** A body that has ended called its hooks in exactly one of two shapes. Either bring-up never came up, by its
      last reading or by a raised flag: its sweeps and one on_stop per control. Or its last reading, and no
      earlier one, was Operational: the sweeps, one on_operational per control, a steady cycle for every fault
      reading but the last, one on_stop per control, and stopping cycles up to the first complete teardown
      report or teardown_cycles of them. The reason given is the first cause. */
  lemma EndedShape(cfg: Config, requesters: nat, acts: seq<Act>)
    requires cfg.Valid() && After(cfg, requesters, acts).rt.pc == Finished
    ensures var s := After(cfg, requesters, acts);
            && s.phase == Stopped && s.causes != [] && s.reason == s.causes[0] != None
            && (NeverServed(cfg, s) || ServedAndClosed(cfg, s))
  {
    AfterIsOk(cfg, requesters, acts);
  }

  /** In every reachable state the causes are what happened: an abort or a timeout was read at the end of a
      bring-up sweep, a fault was read in a steady cycle, some thread asked. */
  lemma CausesTell(cfg: Config, requesters: nat, acts: seq<Act>)
    requires cfg.Valid()
    ensures var s := After(cfg, requesters, acts);
            && (BringupAborted in s.causes <==>
                  s.rt.pc != LatchAbort && exists j :: 0 <= j < |s.rt.heard| && GivesUp(s.rt.heard[j]))
            && (BusFault in s.causes <==> s.rt.pc != LatchBus && true in s.rt.faults)
            && (Requested in s.causes <==> AskedFor(s))
  {
    AfterIsOk(cfg, requesters, acts);
    var s := After(cfg, requesters, acts);
    if j :| 0 <= j < |s.rt.heard| && GivesUp(s.rt.heard[j]) {
      assert GaveUp(s.rt.heard);
    }
  }

  predicate Serves(e: Event) { e.hook == Operational || e.hook.Stepped? }

  /** In every reachable state: a control has been announced or stepped only if the last bring-up reading is
      Operational and every earlier one in progress without timeout; and once that is so, each control is
      announced, in order, before anything else. */
  lemma ServedExactlyWhenUp(cfg: Config, requesters: nat, acts: seq<Act>)
    requires cfg.Valid()
    ensures var s := After(cfg, requesters, acts); var log := s.rt.log;
            && (!CameUp(s.rt.heard) ==> forall j :: 0 <= j < |log| ==> !Serves(log[j]))
            && (CameUp(s.rt.heard) ==>
                  if s.rt.pc.Announcing? then log == Sweep(Attempted(cfg, |s.rt.heard|), Operational, s.rt.pc.i)
                  else Announced(cfg, |s.rt.heard|) <= log)
  {
    AfterIsOk(cfg, requesters, acts);
    var s := After(cfg, requesters, acts);
    if CameUp(s.rt.heard) {
      UpIsNotGivenUp(s.rt.heard);
    }
    UpIsAnnounced(cfg, s);
    if !CameUp(s.rt.heard) {
      NotUpServesNobody(cfg, s);
    }
  }

  lemma {:induction false} SweepServes(base: seq<Event>, hook: Hook, n: nat)
    requires hook != Operational && !hook.Stepped? && forall j :: 0 <= j < |base| ==> !Serves(base[j])
    ensures forall j :: 0 <= j < |Sweep(base, hook, n)| ==> !Serves(Sweep(base, hook, n)[j])
  {
    if n > 0 {
      SweepServes(base, hook, n - 1);
    }
  }

  lemma {:induction false} AttemptsServe(cfg: Config, b: nat)
    ensures forall j :: 0 <= j < |Attempted(cfg, b)| ==> !Serves(Attempted(cfg, b)[j])
  {
    if b > 0 {
      AttemptsServe(cfg, b - 1);
      SweepServes(Attempted(cfg, b - 1), Staged, cfg.controls);
    }
  }

  lemma NotUpServesNobody(cfg: Config, s: Sys)
    requires Shape(cfg, s) && !CameUp(s.rt.heard)
    ensures forall j :: 0 <= j < |s.rt.log| ==> !Serves(s.rt.log[j])
  {
    var b := |s.rt.heard|;
    AttemptsServe(cfg, b);
    match s.rt.pc
    case Staging(i) => SweepServes(Attempted(cfg, b), Staged, i);
    case AbortTelling(i, r) => SweepServes(Attempted(cfg, b), Told(r), i);
    case Finished => SweepServes(Attempted(cfg, b), Told(s.reason), cfg.controls);
    case _ =>
  }

  lemma UpIsNotGivenUp(heard: seq<Reading>)
    requires CameUp(heard)
    ensures !GaveUp(heard) && !AllPending(heard)
  {
    assert !Pending(heard[|heard| - 1]);
  }

  lemma UpIsAnnounced(cfg: Config, s: Sys)
    requires Shape(cfg, s) && (CameUp(s.rt.heard) ==> !GaveUp(s.rt.heard) && !AllPending(s.rt.heard))
    ensures CameUp(s.rt.heard) && !s.rt.pc.Announcing? ==> Announced(cfg, |s.rt.heard|) <= s.rt.log
  {
    var b := |s.rt.heard|;
    if CameUp(s.rt.heard) && !s.rt.pc.Announcing? {
      if s.rt.pc == Finished {
        AnnouncedFirst(cfg, b, Steady(s.rt), s.reason, |s.rt.torn|);
      } else if s.rt.stopping {
        AnnouncedFirst(cfg, b, Steady(s.rt), s.reason, |s.rt.torn|);
        SweepGrowsFrom(cfg, s);
      } else {
        AnnouncedFirst(cfg, b, s.rt.cycle, None, 0);
        if s.rt.pc.Stepping? {
          SweepGrows(Served(cfg, b, s.rt.cycle), Stepped(false), s.rt.pc.i);
        }
      }
    }
  }

  lemma SweepGrowsFrom(cfg: Config, s: Sys)
    requires ClosingShape(cfg, s)
    ensures Served(cfg, |s.rt.heard|, Steady(s.rt)) <= s.rt.log
  {
    var b, m := |s.rt.heard|, |s.rt.torn|;
    AnnouncedFirst(cfg, b, Steady(s.rt), s.reason, m);
    if s.rt.pc.Telling? {
      SweepGrows(Served(cfg, b, Steady(s.rt)), Told(s.reason), s.rt.pc.i);
    } else if s.rt.pc.Stepping? {
      SweepGrows(Closed(cfg, b, Steady(s.rt), s.reason, m), Stepped(true), s.rt.pc.i);
    }
  }

  // --- counting on_stop --------------------------------------------------------------------------

  /** How often control c was told to stop, with any reason. */
  function Tellings(log: seq<Event>, c: nat): nat {
    if log == [] then 0
    else Tellings(log[..|log| - 1], c) + if log[|log| - 1].hook.Told? && log[|log| - 1].control == c then 1 else 0
  }

  lemma {:induction false} SweepTells(base: seq<Event>, hook: Hook, n: nat, c: nat)
    ensures Tellings(Sweep(base, hook, n), c) == Tellings(base, c) + if hook.Told? && c < n then 1 else 0
  {
    if n > 0 {
      SweepTells(base, hook, n - 1, c);
      var pre := Sweep(base, hook, n - 1);
      assert Sweep(base, hook, n)[..|pre|] == pre;
    }
  }

  lemma {:induction false} SweepsTellNothing(base: seq<Event>, hook: Hook, n: nat, k: nat, c: nat)
    requires !hook.Told?
    ensures Tellings(Sweeps(base, hook, n, k), c) == Tellings(base, c)
  {
    if k > 0 {
      SweepsTellNothing(base, hook, n, k - 1, c);
      SweepTells(Sweeps(base, hook, n, k - 1), hook, n, c);
    }
  }

  lemma ServedTellsNothing(cfg: Config, b: nat, k: nat, c: nat)
    ensures Tellings(Attempted(cfg, b), c) == 0 && Tellings(Served(cfg, b, k), c) == 0
  {
    SweepsTellNothing([], Staged, cfg.controls, b, c);
    SweepTells(Attempted(cfg, b), Operational, cfg.controls, c);
    SweepsTellNothing(Sweep(Attempted(cfg, b), Operational, cfg.controls), Stepped(false), cfg.controls, k, c);
  }

  /** on_stop runs exactly once per control. */
  lemma ToldExactlyOnce(cfg: Config, requesters: nat, acts: seq<Act>, c: nat)
    requires cfg.Valid() && After(cfg, requesters, acts).rt.pc == Finished && c < cfg.controls
    ensures Tellings(After(cfg, requesters, acts).rt.log, c) == 1
  {
    EndedShape(cfg, requesters, acts);
    var s := After(cfg, requesters, acts);
    var b := |s.rt.heard|;
    ServedTellsNothing(cfg, b, 0, c);
    if NeverServed(cfg, s) {
      SweepTells(Attempted(cfg, b), Told(s.reason), cfg.controls, c);
    } else {
      var k, m := Steady(s.rt), |s.rt.torn|;
      ServedTellsNothing(cfg, b, k, c);
      SweepTells(Served(cfg, b, k), Told(s.reason), cfg.controls, c);
      SweepsTellNothing(Sweep(Served(cfg, b, k), Told(s.reason), cfg.controls), Stepped(true), cfg.controls, m, c);
    }
  }

  // --- no step before Operational ----------------------------------------------------------------

  /** Everything up to and including on_operational of every control. */
  function Announced(cfg: Config, b: nat): seq<Event> { Sweep(Attempted(cfg, b), Operational, cfg.controls) }

  predicate NoStep(log: seq<Event>) { forall j :: 0 <= j < |log| ==> !log[j].hook.Stepped? }

  /** Steps come only after the announcement. */
  predicate StepsAfter(pre: seq<Event>, log: seq<Event>) { NoStep(log) || (pre <= log && NoStep(pre)) }

  lemma {:induction false} SweepGrows(base: seq<Event>, hook: Hook, n: nat)
    ensures base <= Sweep(base, hook, n)
    ensures NoStep(base) && !hook.Stepped? ==> NoStep(Sweep(base, hook, n))
  {
    if n > 0 {
      SweepGrows(base, hook, n - 1);
    }
  }

  lemma {:induction false} SweepsGrow(base: seq<Event>, hook: Hook, n: nat, k: nat)
    ensures base <= Sweeps(base, hook, n, k)
    ensures NoStep(base) && !hook.Stepped? ==> NoStep(Sweeps(base, hook, n, k))
  {
    if k > 0 {
      SweepsGrow(base, hook, n, k - 1);
      SweepGrows(Sweeps(base, hook, n, k - 1), hook, n);
    }
  }

  lemma AnnouncedFirst(cfg: Config, b: nat, k: nat, r: StopReason, m: nat)
    ensures NoStep(Attempted(cfg, b)) && NoStep(Announced(cfg, b))
    ensures Announced(cfg, b) <= Served(cfg, b, k) <= Closed(cfg, b, k, r, m)
  {
    SweepsGrow([], Staged, cfg.controls, b);
    SweepGrows(Attempted(cfg, b), Operational, cfg.controls);
    SweepsGrow(Announced(cfg, b), Stepped(false), cfg.controls, k);
    SweepGrows(Served(cfg, b, k), Told(r), cfg.controls);
    SweepsGrow(Sweep(Served(cfg, b, k), Told(r), cfg.controls), Stepped(true), cfg.controls, m);
  }

  /** In every reachable state, a step of any control comes after on_operational of every control
      (which ServedExactlyWhenUp puts after the bring-up verdict). */
  lemma NoStepBeforeOperational(cfg: Config, requesters: nat, acts: seq<Act>)
    requires cfg.Valid()
    ensures var s := After(cfg, requesters, acts); StepsAfter(Announced(cfg, |s.rt.heard|), s.rt.log)
  {
    AfterIsOk(cfg, requesters, acts);
    ShapeStepsAfter(cfg, After(cfg, requesters, acts));
  }

  lemma ShapeStepsAfter(cfg: Config, s: Sys)
    requires Shape(cfg, s)
    ensures StepsAfter(Announced(cfg, |s.rt.heard|), s.rt.log)
  {
    var b := |s.rt.heard|;
    AnnouncedFirst(cfg, b, 0, None, 0);
    if s.rt.pc == Finished {
      if NeverServed(cfg, s) {
        SweepGrows(Attempted(cfg, b), Told(s.reason), cfg.controls);
      } else {
        AnnouncedFirst(cfg, b, Steady(s.rt), s.reason, |s.rt.torn|);
      }
    } else if InBringup(s.rt.pc) {
      BringupHasNoStep(cfg, s);
    } else if s.rt.stopping {
      AnnouncedFirst(cfg, b, Steady(s.rt), s.reason, |s.rt.torn|);
      SweepGrowsFrom(cfg, s);
    } else {
      AnnouncedFirst(cfg, b, s.rt.cycle, None, 0);
      if s.rt.pc.Announcing? {
        SweepGrows(Attempted(cfg, b), Operational, s.rt.pc.i);
      } else if s.rt.pc.Stepping? {
        SweepGrows(Served(cfg, b, s.rt.cycle), Stepped(false), s.rt.pc.i);
      }
    }
  }

  lemma BringupHasNoStep(cfg: Config, s: Sys)
    requires InBringup(s.rt.pc) && BringupShape(cfg, s)
    ensures NoStep(s.rt.log)
  {
    AnnouncedFirst(cfg, |s.rt.heard|, 0, None, 0);
    if s.rt.pc.Staging? {
      SweepGrows(Attempted(cfg, |s.rt.heard|), Staged, s.rt.pc.i);
    } else if s.rt.pc.AbortTelling? {
      SweepGrows(Attempted(cfg, |s.rt.heard|), Told(s.rt.pc.reason), s.rt.pc.i);
    }
  }

  // --- a raised flag ends the body ---------------------------------------------------------------

  /** Body steps of w more stopping cycles. */
  function Window(n: nat, w: nat): nat { if w == 0 then 0 else Window(n, w - 1) + n + 2 }

  /** Body steps left once the flag is up. */
  function Left(cfg: Config, rt: Rt): int {
    var n := cfg.controls;
    var telling := n + 1 + Window(n, cfg.teardown);
    var serving := telling + 5;
    match rt.pc
    case Finished => 0
    case CheckFlag => n + 6
    case AbortCheck => n + 5
    case AbortLatch => n + 4
    case AbortLoad => n + 3
    case AbortTelling(i, _) => n + 2 - i
    case LatchAbort => n + 7
    case Staging(i) => (n + 1 - i) + (n + 1) + serving
    case Announcing(i) => (n + 1 - i) + serving
    case Process => if rt.stopping then Window(n, rt.left) else serving
    case LatchBus => telling + 4
    case RaiseFlag => telling + 3
    case FlagCheck => telling + 2
    case LoadReason => telling + 1
    case Telling(i, _) => telling - i
    case Stepping(i) => if rt.stopping then Window(n, rt.left) - 1 - i else (n + 1 - i) + serving
  }

  lemma WindowIs(n: nat, w: nat)
    ensures Window(n, w) == w * (n + 2)
  {
    if w > 0 {
      WindowIs(n, w - 1);
      assert w * (n + 2) == (w - 1) * (n + 2) + (n + 2);
    }
  }

  /** Indices and the window counter stay in range. */
  predicate InRange(cfg: Config, rt: Rt) {
    match rt.pc
    case Staging(i) => i <= cfg.controls
    case AbortTelling(i, _) => i <= cfg.controls
    case Announcing(i) => i <= cfg.controls && !rt.stopping
    case Telling(i, _) => i <= cfg.controls && rt.stopping && rt.left == cfg.teardown
    case LoadReason => rt.stopping && rt.left == cfg.teardown
    case Stepping(i) => i <= cfg.controls && (rt.stopping ==> 1 <= rt.left <= cfg.teardown)
    case Process => rt.stopping ==> 1 <= rt.left <= cfg.teardown
    case LatchBus => !rt.stopping
    case RaiseFlag => !rt.stopping
    case FlagCheck => !rt.stopping
    case _ => true
  }

  lemma ShapeInRange(cfg: Config, s: Sys)
    requires Shape(cfg, s)
    ensures InRange(cfg, s.rt)
  {
  }

  lemma BringupLosesOne(cfg: Config, s: Sys, x: Reading)
    requires InRange(cfg, s.rt) && s.flag && InBringup(s.rt.pc)
    ensures var r := BringupStep(cfg, s, x); r.flag && 0 <= Left(cfg, r.rt) < Left(cfg, s.rt)
  {
  }

  lemma ServingLosesOne(cfg: Config, s: Sys, x: Reading)
    requires cfg.Valid() && InRange(cfg, s.rt) && s.flag && !InBringup(s.rt.pc) && s.rt.pc != Finished && !s.rt.stopping
    ensures var r := SteadyStep(cfg, s, x); r.flag && 0 <= Left(cfg, r.rt) < Left(cfg, s.rt)
  {
  }

  lemma EndLosesOne(cfg: Config, s: Sys, x: Reading)
    requires InRange(cfg, s.rt) && s.rt.stopping && s.rt.pc == Stepping(cfg.controls)
    ensures var r := EndCycle(s, x); r.flag == s.flag && 0 <= Left(cfg, r.rt) < Left(cfg, s.rt)
  {
    assert Window(cfg.controls, s.rt.left) == Window(cfg.controls, s.rt.left - 1) + cfg.controls + 2;
  }

  lemma ClosingLosesOne(cfg: Config, s: Sys, x: Reading)
    requires cfg.Valid() && InRange(cfg, s.rt) && s.flag && !InBringup(s.rt.pc) && s.rt.pc != Finished && s.rt.stopping
    ensures var r := SteadyStep(cfg, s, x); r.flag && 0 <= Left(cfg, r.rt) < Left(cfg, s.rt)
  {
    if s.rt.pc == Stepping(cfg.controls) {
      EndLosesOne(cfg, s, x);
    } else {
      assert Window(cfg.controls, s.rt.left) >= if s.rt.left > 0 then cfg.controls + 2 else 0;
    }
  }

  lemma BodyLosesOne(cfg: Config, s: Sys, x: Reading)
    requires cfg.Valid() && Inv(cfg, s) && s.flag && s.rt.pc != Finished
    ensures var r := BodyStep(cfg, s, x); r.flag && 0 <= Left(cfg, r.rt) < Left(cfg, s.rt)
  {
    ShapeInRange(cfg, s);
    if InBringup(s.rt.pc) {
      BringupLosesOne(cfg, s, x);
    } else if s.rt.stopping {
      ClosingLosesOne(cfg, s, x);
    } else {
      ServingLosesOne(cfg, s, x);
    }
  }

  function CountBody(acts: seq<Act>): nat {
    if acts == [] then 0 else (if acts[0].Body? then 1 else 0) + CountBody(acts[1..])
  }

  lemma {:induction false} StaysFinished(cfg: Config, s: Sys, acts: seq<Act>)
    requires s.rt.pc == Finished
    ensures Run(cfg, s, acts).rt.pc == Finished
    decreases |acts|
  {
    if acts != [] {
      StaysFinished(cfg, Next(cfg, s, acts[0]), acts[1..]);
    }
  }

  /** With the flag up, a step of the body brings it nearer, and no other step takes it back. */
  lemma ActLosesOne(cfg: Config, s: Sys, a: Act)
    requires cfg.Valid() && Inv(cfg, s) && s.flag && s.rt.pc != Finished
    ensures var r := Next(cfg, s, a);
            r.flag && Inv(cfg, r) && 0 <= Left(cfg, r.rt) <= Left(cfg, s.rt) - if a.Body? then 1 else 0
  {
    NextKeepsInv(cfg, s, a);
    match a
    case Body(x) => BodyLosesOne(cfg, s, x);
    case Request(t) =>
      BodyLosesOne(cfg, s, Reading(InProgress, false, false, false));
      RequestKeepsBody(cfg, s, t);
  }

  lemma RequestKeepsBody(cfg: Config, s: Sys, t: nat)
    ensures var r := Next(cfg, s, Request(t)); r.rt == s.rt && (s.flag ==> r.flag)
  {
  }

  /** Once the flag is up, the body ends within a bounded number of its own steps, whatever the bus, the
      controls and other requesters do. */
  lemma {:induction false} RaisedFlagEndsBody(cfg: Config, s: Sys, acts: seq<Act>)
    requires cfg.Valid() && Inv(cfg, s) && s.flag && CountBody(acts) >= Left(cfg, s.rt)
    ensures Run(cfg, s, acts).rt.pc == Finished
    decreases |acts|
  {
    if s.rt.pc == Finished {
      StaysFinished(cfg, s, acts);
    } else {
      BodyLosesOne(cfg, s, Reading(InProgress, false, false, false));
      ActLosesOne(cfg, s, acts[0]);
      RaisedFlagEndsBody(cfg, Next(cfg, s, acts[0]), acts[1..]);
    }
  }

  lemma {:induction false} WindowGrows(n: nat, v: nat, w: nat)
    requires v <= w
    ensures Window(n, v) <= Window(n, w)
    decreases w
  {
    if v < w {
      WindowGrows(n, v, w - 1);
    }
  }

  /** The bound: one bring-up sweep, one steady sweep and the whole window at most. */
  lemma LeftIsBounded(cfg: Config, s: Sys)
    requires cfg.Valid() && Inv(cfg, s)
    ensures Left(cfg, s.rt) <= 3 * (cfg.controls + 1) + 5 + cfg.teardown * (cfg.controls + 2)
  {
    ShapeInRange(cfg, s);
    LeftInRange(cfg, s.rt);
    WindowIs(cfg.controls, cfg.teardown);
  }

  lemma LeftInRange(cfg: Config, rt: Rt)
    requires InRange(cfg, rt)
    ensures Left(cfg, rt) <= 3 * (cfg.controls + 1) + 5 + Window(cfg.controls, cfg.teardown)
  {
    if rt.left <= cfg.teardown {
      WindowGrows(cfg.controls, rt.left, cfg.teardown);
    }
  }
}
