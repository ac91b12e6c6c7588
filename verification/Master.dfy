/** The master's bring-up gate and working-counter latch, and what they say about the whole input history. */
module Master {
  import opened Arith

  datatype Config = Config(
    expectedWkc: int,
    dcEnabled: bool,
    gateCycles: nat,
    settleCycles: nat,
    holdConfirm: nat,
    awaitBound: nat,
    nudgeInterval: nat,
    maxBad: nat)
  {
    /** Derived once by the constructor: all three are at least 1. */
    predicate Valid() { holdConfirm >= 1 && awaitBound >= 1 && nudgeInterval >= 1 }

    /** Settle cycles before OP is requested. */
    function Target(): (t: nat)
      ensures t >= 1
      ensures t == 1 || (t == gateCycles && dcEnabled)
      ensures dcEnabled ==> t >= gateCycles
    {
      if dcEnabled && gateCycles != 0 then gateCycles else 1
    }

    /** Grace cycles after Operational. */
    function Grace(): (g: nat)
      ensures dcEnabled ==> g == settleCycles
      ensures !dcEnabled ==> g == 0
    {
      if dcEnabled then settleCycles else 0
    }

    /** Consecutive bad cycles that trip the latch. */
    function Need(): (n: nat)
      ensures n >= 1 && n >= maxBad && (n == 1 || n == maxBad)
    {
      if maxBad == 0 then 1 else maxBad
    }
  }

  datatype Phase = Settle | AwaitOp | Done | GivenUp

  datatype Status = Gating | AwaitingOp | Operational | Aborted

  /** One bring-up cycle: the working counter, the controls' two gates and the AL status code. */
  datatype Seen = Seen(wkc: int, syncFaulted: bool, present: bool, alCode: nat)

  predicate Good(cfg: Config, x: Seen) { x.wkc == cfg.expectedWkc && !x.syncFaulted && x.present }

  predicate Bad(cfg: Config, wkc: int) { wkc < 0 || wkc < cfg.expectedWkc }

  /** What bring-up has sent to the bus and kept of it: OP requests, error acknowledgements, and the last
      AL status code that was not 0. */
  datatype Bus = Bus(requests: nat, nudges: nat, alCode: nat)

  datatype Bringup = Bringup(phase: Phase, settled: nat, awaited: nat, streak: nat, bus: Bus)

  const FRESH := Bringup(Settle, 0, 0, 0, Bus(0, 0, 0))

  /** The working-counter latch and health counters. */
  datatype Health = Health(
    grace: nat,
    consecutive: nat,
    fault: bool,
    operational: bool,
    total: nat,
    bad: nat,
    lastGood: int,
    faultWkc: int)

  /** What one await cycle adds: the AL code it read, and a nudge once per interval. */
  function BusNext(cfg: Config, bus: Bus, awaited: nat, x: Seen): Bus
    requires cfg.Valid()
  {
    bus.(alCode := if x.alCode != 0 then x.alCode else bus.alCode,
         nudges := bus.nudges + if awaited % cfg.nudgeInterval == 0 then 1 else 0)
  }

  function BringupNext(cfg: Config, b: Bringup, x: Seen): Bringup
    requires cfg.Valid()
  {
    match b.phase
    case Settle =>
      if b.settled + 1 >= cfg.Target()
      then Bringup(AwaitOp, b.settled + 1, 0, 0, b.bus.(requests := b.bus.requests + 1))
      else b.(settled := b.settled + 1)
    case AwaitOp =>
      var streak := if Good(cfg, x) then b.streak + 1 else 0;
      var c := b.(awaited := b.awaited + 1, streak := streak, bus := BusNext(cfg, b.bus, b.awaited + 1, x));
      if streak >= cfg.holdConfirm then c.(phase := Done)
      else if c.awaited >= cfg.awaitBound then c.(phase := GivenUp) else c
    case Done => b
    case GivenUp => b
  }

  /** What the call returns, from the phase it was made in and the phase it leaves. */
  function Answer(before: Phase, after: Phase): Status {
    match after
    case Done => Operational
    case GivenUp => Aborted
    case _ => if before == Settle then Gating else AwaitingOp
  }

  function HealthNext(cfg: Config, h: Health, wkc: int): Health {
    var bad := Bad(cfg, wkc);
    var consecutive := if h.grace > 0 || !bad then 0 else h.consecutive + 1;
    var trips := h.grace == 0 && bad && consecutive >= cfg.maxBad;
    Health(if h.grace > 0 then h.grace - 1 else 0, consecutive, h.fault || trips, h.operational && !trips,
           h.total + 1, h.bad + if bad then 1 else 0,
           if bad then h.lastGood else wkc, if trips then wkc else h.faultWkc)
  }

  // --- the object --------------------------------------------------------------------------------

  class Master {
    const cfg: Config
    var phase: Phase
    var settled: nat
    var awaited: nat
    var streak: nat
    var bus: Bus
    var health: Health

    ghost function Progress(): Bringup
      reads this
    {
      Bringup(phase, settled, awaited, streak, bus)
    }

    /** The state configure() leaves. */
    constructor (cfg: Config)
      ensures this.cfg == cfg && Progress() == FRESH && health == Health(0, 0, false, false, 0, 0, 0, 0)
    {
      this.cfg := cfg;
      phase, settled, awaited, streak, bus := Settle, 0, 0, 0, Bus(0, 0, 0);
      health := Health(0, 0, false, false, 0, 0, 0, 0);
    }

    /** One bring-up exchange; reaching Operational arms the latch with the settle grace. */
    method BringupStep(x: Seen) returns (status: Status)
      requires cfg.Valid()
      modifies this
      ensures Progress() == BringupNext(cfg, old(Progress()), x)
      ensures status == Answer(old(phase), phase)
      ensures health == if phase == Done && old(phase) != Done
                        then old(health).(operational := true, grace := cfg.Grace(), fault := false, consecutive := 0)
                        else old(health)
    {
      match phase {
        case Settle =>
          var target := 1;
          if cfg.dcEnabled && cfg.gateCycles != 0 {
            target := cfg.gateCycles;
          }
          settled := settled + 1;
          if settled >= target {
            bus := bus.(requests := bus.requests + 1);
            awaited, streak, phase := 0, 0, AwaitOp;
          }
          return Gating;
        case AwaitOp =>
          awaited := awaited + 1;
          if x.alCode != 0 {
            bus := bus.(alCode := x.alCode);
          }
          if awaited % cfg.nudgeInterval == 0 {
            bus := bus.(nudges := bus.nudges + 1);
          }
          if x.wkc == cfg.expectedWkc && !x.syncFaulted && x.present {
            streak := streak + 1;
          } else {
            streak := 0;
          }
          if streak >= cfg.holdConfirm {
            var grace := if cfg.dcEnabled then cfg.settleCycles else 0;
            health := health.(operational := true, grace := grace, fault := false, consecutive := 0);
            phase := Done;
            return Operational;
          }
          if awaited >= cfg.awaitBound {
            phase := GivenUp;
            return Aborted;
          }
          return AwaitingOp;
        case Done => return Operational;
        case GivenUp => return Aborted;
      }
    }

    /** One steady exchange. */
    method Process(wkc: int)
      modifies this`health
      ensures health == HealthNext(cfg, old(health), wkc)
    {
      health := health.(total := health.total + 1);
      if wkc < 0 || wkc < cfg.expectedWkc {
        health := health.(bad := health.bad + 1);
      }
      var inGrace := health.grace > 0;
      if inGrace {
        health := health.(grace := health.grace - 1, consecutive := 0);
      }
      if wkc < 0 || wkc < cfg.expectedWkc {
        if !inGrace {
          health := health.(consecutive := health.consecutive + 1);
          if health.consecutive >= cfg.maxBad {
            health := health.(faultWkc := wkc, fault := true, operational := false);
          }
        }
      } else {
        health := health.(consecutive := 0, lastGood := wkc);
      }
    }
  }

  // --- bring-up against its history --------------------------------------------------------------

  function Brought(cfg: Config, xs: seq<Seen>): Bringup
    requires cfg.Valid()
  {
    if xs == [] then FRESH else BringupNext(cfg, Brought(cfg, xs[..|xs| - 1]), xs[|xs| - 1])
  }

  /** Cycles i - holdConfirm .. i are await cycles within the bound, all good. */
  predicate HeldAt(cfg: Config, xs: seq<Seen>, i: int) {
    && cfg.Target() + cfg.holdConfirm <= i <= |xs| && i <= cfg.Target() + cfg.awaitBound
    && forall j {:trigger xs[j]} :: 0 <= j < |xs| && i - cfg.holdConfirm <= j < i ==> Good(cfg, xs[j])
  }

  ghost predicate Held(cfg: Config, xs: seq<Seen>) { exists i :: HeldAt(cfg, xs, i) }

  lemma HeldOneMore(cfg: Config, xs: seq<Seen>, x: Seen)
    ensures Held(cfg, xs + [x]) <==> Held(cfg, xs) || HeldAt(cfg, xs + [x], |xs| + 1)
  {
    var ys := xs + [x];
    if Held(cfg, xs) {
      var i :| HeldAt(cfg, xs, i);
      assert HeldAt(cfg, ys, i);
    }
    if Held(cfg, ys) && !HeldAt(cfg, ys, |xs| + 1) {
      var i :| HeldAt(cfg, ys, i);
      assert forall j :: 0 <= j < |xs| ==> xs[j] == ys[j];
      assert HeldAt(cfg, xs, i);
    }
  }

  /** `streak` is the length of the good run the history ends with, inside the await phase. */
  predicate StreakIs(cfg: Config, xs: seq<Seen>, streak: nat) {
    && cfg.Target() + streak <= |xs|
    && (forall j :: |xs| - streak <= j < |xs| ==> Good(cfg, xs[j]))
    && (cfg.Target() + streak == |xs| || !Good(cfg, xs[|xs| - streak - 1]))
  }

  lemma StreakOneMore(cfg: Config, xs: seq<Seen>, x: Seen, streak: nat)
    requires StreakIs(cfg, xs, streak)
    ensures StreakIs(cfg, xs + [x], if Good(cfg, x) then streak + 1 else 0)
  {
  }

  lemma StreakMeansHeld(cfg: Config, xs: seq<Seen>, streak: nat)
    requires StreakIs(cfg, xs, streak) && cfg.holdConfirm >= 1
    ensures HeldAt(cfg, xs, |xs|) <==> streak >= cfg.holdConfirm && |xs| <= cfg.Target() + cfg.awaitBound
  {
    if streak < |xs| {
      var broken := xs[|xs| - streak - 1];
    }
  }

  /** The last AL status code other than 0 among the cycles from `start` on. */
  function LastCode(xs: seq<Seen>, start: nat): nat {
    if |xs| <= start then 0
    else if xs[|xs| - 1].alCode != 0 then xs[|xs| - 1].alCode else LastCode(xs[..|xs| - 1], start)
  }

  /** What went to the bus, after the await cycles that were run. */
  predicate BusTells(cfg: Config, xs: seq<Seen>, b: Bringup)
    requires cfg.Valid()
  {
    && b.bus.requests == (if |xs| >= cfg.Target() then 1 else 0)
    && (|xs| < cfg.Target() ==> b.bus.nudges == 0 && b.bus.alCode == 0)
    && (|xs| >= cfg.Target() ==>
          && cfg.Target() + b.awaited <= |xs| && b.bus.nudges == b.awaited / cfg.nudgeInterval
          && b.bus.alCode == LastCode(xs[..cfg.Target() + b.awaited], cfg.Target()))
  }

  /** The counters read back from the history. */
  ghost predicate Tells(cfg: Config, xs: seq<Seen>, b: Bringup)
    requires cfg.Valid()
  {
    && BusTells(cfg, xs, b)
    && match b.phase
       case Settle => |xs| < cfg.Target() && b.settled == |xs|
       case AwaitOp =>
         cfg.Target() <= |xs| < cfg.Target() + cfg.awaitBound && b.awaited == |xs| - cfg.Target()
         && !Held(cfg, xs) && StreakIs(cfg, xs, b.streak)
       case Done => Held(cfg, xs) && |xs| >= cfg.Target()
       case GivenUp => !Held(cfg, xs) && |xs| >= cfg.Target() + cfg.awaitBound
  }

  lemma BusOneMore(cfg: Config, xs: seq<Seen>, x: Seen, b: Bringup)
    requires cfg.Valid() && Tells(cfg, xs, b)
    ensures BusTells(cfg, xs + [x], BringupNext(cfg, b, x))
  {
    var ys, c := xs + [x], BringupNext(cfg, b, x);
    if b.phase == AwaitOp {
      QuotientStep(b.awaited, cfg.nudgeInterval);
      assert xs[..cfg.Target() + b.awaited] == xs && ys[..cfg.Target() + c.awaited] == ys;
      assert ys[..|ys| - 1] == xs;
    } else if b.phase == Settle && c.phase == AwaitOp {
      QuotientAndRemainder(0, 0, cfg.nudgeInterval);
    } else if |xs| >= cfg.Target() {
      assert ys[..cfg.Target() + b.awaited] == xs[..cfg.Target() + b.awaited];
    }
  }

  lemma TellsOneMore(cfg: Config, xs: seq<Seen>, x: Seen, b: Bringup)
    requires cfg.Valid() && Tells(cfg, xs, b)
    ensures Tells(cfg, xs + [x], BringupNext(cfg, b, x))
  {
    BusOneMore(cfg, xs, x, b);
    HeldOneMore(cfg, xs, x);
    if b.phase == AwaitOp {
      var streak := if Good(cfg, x) then b.streak + 1 else 0;
      StreakOneMore(cfg, xs, x, b.streak);
      StreakMeansHeld(cfg, xs + [x], streak);
    }
  }

  lemma {:induction false} BroughtTells(cfg: Config, xs: seq<Seen>)
    requires cfg.Valid()
    ensures Tells(cfg, xs, Brought(cfg, xs))
  {
    if xs != [] {
      var pre := xs[..|xs| - 1];
      BroughtTells(cfg, pre);
      TellsOneMore(cfg, pre, xs[|xs| - 1], Brought(cfg, pre));
      assert pre + [xs[|xs| - 1]] == xs;
    }
  }

  /** What the call that ends the history `xs` returns. */
  function LastAnswer(cfg: Config, xs: seq<Seen>): Status
    requires cfg.Valid() && xs != []
  {
    Answer(Brought(cfg, xs[..|xs| - 1]).phase, Brought(cfg, xs).phase)
  }

  /** For every input history: OP is requested exactly once, by the call that completes the settle target;
      Operational is answered exactly when some `holdConfirm` consecutive await cycles within the bound
      all had full working counter, no sync fault and a present drive; Aborted exactly when the bound
      has passed without them; Gating exactly during settle; AwaitingOp otherwise. Errors were
      acknowledged once per nudge interval of await cycles, and the kept AL code is the last one read in
      them that was not 0. */
  lemma BringupRefinesHistory(cfg: Config, xs: seq<Seen>)
    requires cfg.Valid() && xs != []
    ensures BusTells(cfg, xs, Brought(cfg, xs))
    ensures Brought(cfg, xs).bus.requests == if |xs| >= cfg.Target() then 1 else 0
    ensures LastAnswer(cfg, xs) == Operational <==> Held(cfg, xs)
    ensures LastAnswer(cfg, xs) == Aborted <==> !Held(cfg, xs) && |xs| >= cfg.Target() + cfg.awaitBound
    ensures LastAnswer(cfg, xs) == Gating <==> |xs| <= cfg.Target()
    ensures LastAnswer(cfg, xs) == AwaitingOp <==>
            !Held(cfg, xs) && cfg.Target() < |xs| < cfg.Target() + cfg.awaitBound
  {
    BroughtTells(cfg, xs);
    BroughtTells(cfg, xs[..|xs| - 1]);
  }

  /** Both results are absorbing: more cycles never change them. */
  lemma {:induction false} ResultsAreAbsorbing(cfg: Config, xs: seq<Seen>, more: seq<Seen>)
    requires cfg.Valid() && xs != [] && LastAnswer(cfg, xs) in {Operational, Aborted}
    ensures LastAnswer(cfg, xs + more) == LastAnswer(cfg, xs)
    decreases |more|
  {
    if more == [] {
      assert xs + more == xs;
    } else {
      var pre := more[..|more| - 1];
      ResultsAreAbsorbing(cfg, xs, pre);
      assert (xs + more)[..|xs + more| - 1] == xs + pre;
    }
  }

  // --- the latch against its history -------------------------------------------------------------

  function Processed(cfg: Config, h: Health, ws: seq<int>): Health {
    if ws == [] then h else HealthNext(cfg, Processed(cfg, h, ws[..|ws| - 1]), ws[|ws| - 1])
  }

  function CountBad(cfg: Config, ws: seq<int>): nat {
    if ws == [] then 0 else CountBad(cfg, ws[..|ws| - 1]) + if Bad(cfg, ws[|ws| - 1]) then 1 else 0
  }

  /** Cycles i - need .. i lie wholly after the grace and are all bad. */
  predicate BadRunAt(cfg: Config, grace: nat, ws: seq<int>, i: int) {
    && grace + cfg.Need() <= i <= |ws|
    && forall j {:trigger ws[j]} :: 0 <= j < |ws| && i - cfg.Need() <= j < i ==> Bad(cfg, ws[j])
  }

  ghost predicate BadRun(cfg: Config, grace: nat, ws: seq<int>) { exists i :: BadRunAt(cfg, grace, ws, i) }

  lemma BadRunOneMore(cfg: Config, grace: nat, ws: seq<int>, w: int)
    ensures BadRun(cfg, grace, ws + [w]) <==> BadRun(cfg, grace, ws) || BadRunAt(cfg, grace, ws + [w], |ws| + 1)
  {
    var ys := ws + [w];
    if BadRun(cfg, grace, ws) {
      var i :| BadRunAt(cfg, grace, ws, i);
      assert BadRunAt(cfg, grace, ys, i);
    }
    if BadRun(cfg, grace, ys) && !BadRunAt(cfg, grace, ys, |ws| + 1) {
      var i :| BadRunAt(cfg, grace, ys, i);
      assert forall j :: 0 <= j < |ws| ==> ws[j] == ys[j];
      assert BadRunAt(cfg, grace, ws, i);
    }
  }

  /** `n` is the length of the bad run the history ends with, outside the grace. */
  predicate BadStreakIs(cfg: Config, grace: nat, ws: seq<int>, n: nat) {
    && (n > 0 ==> grace + n <= |ws|) && n <= |ws|
    && (forall j :: |ws| - n <= j < |ws| ==> Bad(cfg, ws[j]))
    && (grace + n >= |ws| || !Bad(cfg, ws[|ws| - n - 1]))
  }

  lemma BadStreakMeansRun(cfg: Config, grace: nat, ws: seq<int>, n: nat)
    requires BadStreakIs(cfg, grace, ws, n)
    ensures BadRunAt(cfg, grace, ws, |ws|) <==> n >= cfg.Need()
  {
    if n < |ws| {
      var broken := ws[|ws| - n - 1];
    }
  }

  /** The last good working counter, or the one before the history. */
  function LastGood(cfg: Config, ws: seq<int>, before: int): int {
    if ws == [] then before
    else if Bad(cfg, ws[|ws| - 1]) then LastGood(cfg, ws[..|ws| - 1], before) else ws[|ws| - 1]
  }

  /** The working counter of the last cycle that ended a bad run, or the one before the history. */
  function LastTrip(cfg: Config, grace: nat, ws: seq<int>, before: int): int {
    if ws == [] then before
    else if BadRunAt(cfg, grace, ws, |ws|) then ws[|ws| - 1] else LastTrip(cfg, grace, ws[..|ws| - 1], before)
  }

  ghost predicate HealthTells(cfg: Config, start: Health, ws: seq<int>, h: Health) {
    var grace := start.grace;
    && h.lastGood == LastGood(cfg, ws, start.lastGood) && h.faultWkc == LastTrip(cfg, grace, ws, start.faultWkc)
    && h.total == |ws| && h.bad == CountBad(cfg, ws)
    && h.grace == (if |ws| <= grace then grace - |ws| else 0)
    && BadStreakIs(cfg, grace, ws, h.consecutive)
    && (h.fault <==> BadRun(cfg, grace, ws)) && h.operational == !h.fault
  }

  lemma HealthOneMore(cfg: Config, start: Health, ws: seq<int>, w: int, h: Health)
    requires HealthTells(cfg, start, ws, h)
    ensures HealthTells(cfg, start, ws + [w], HealthNext(cfg, h, w))
  {
    var grace := start.grace;
    var r := HealthNext(cfg, h, w);
    assert (ws + [w])[..|ws|] == ws;
    BadRunOneMore(cfg, grace, ws, w);
    assert BadStreakIs(cfg, grace, ws + [w], r.consecutive);
    BadStreakMeansRun(cfg, grace, ws + [w], r.consecutive);
  }

  /** The state bringup_step leaves on reaching Operational after configure(). */
  predicate Armed(cfg: Config, h: Health) {
    h.grace == cfg.Grace() && h.consecutive == 0 && !h.fault && h.operational && h.total == 0 && h.bad == 0
  }

  /** From Operational on, over every working-counter history: the fault is latched exactly when some run
      of max(1, max_consecutive) consecutive bad cycles lies wholly after the settle grace (so it never
      unlatches), operational is its opposite, the two counters are the counts over the history, and the
      two kept working counters are the last good one and that of the last cycle that ended such a run. */
  lemma {:induction false} LatchRefinesHistory(cfg: Config, start: Health, ws: seq<int>)
    requires Armed(cfg, start)
    ensures var h := Processed(cfg, start, ws);
            && (h.fault <==> BadRun(cfg, cfg.Grace(), ws)) && h.operational == !h.fault
            && h.total == |ws| && h.bad == CountBad(cfg, ws)
            && h.lastGood == LastGood(cfg, ws, start.lastGood)
            && h.faultWkc == LastTrip(cfg, cfg.Grace(), ws, start.faultWkc)
            && HealthTells(cfg, start, ws, h)
  {
    if ws != [] {
      var pre := ws[..|ws| - 1];
      LatchRefinesHistory(cfg, start, pre);
      HealthOneMore(cfg, start, pre, ws[|ws| - 1], Processed(cfg, start, pre));
      assert pre + [ws[|ws| - 1]] == ws;
    }
  }
}
