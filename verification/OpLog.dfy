/** What a cycle publishes is exactly its log of publications, and it adopts only what it drained. */
module OpLog {
  import opened Commands
  import opened Published
  import opened Controller

  /** Where a cycle starts: the published atomics and the wake counter. */
  datatype Origin = Origin(atoms: Atoms, wake: nat)

  /** How many of the publications, made in order, are followed by a wake. */
  function Wakes(a: Atoms, ops: seq<RtOp>): nat {
    if ops == [] then 0
    else
      var pre := ops[..|ops| - 1];
      Wakes(a, pre) + if Bumps(PublishAll(a, pre), ops[|ops| - 1]) then 1 else 0
  }

  lemma WakesOneMore(a: Atoms, ops: seq<RtOp>, op: RtOp)
    ensures Wakes(a, ops + [op]) == Wakes(a, ops) + if Bumps(PublishAll(a, ops), op) then 1 else 0
  {
    assert (ops + [op])[..|ops|] == ops;
  }

  /** The published state is the log applied to where the cycle started, and each wake is sent. */
  predicate Logged(base: Origin, c: Ctl) {
    c.atoms == PublishAll(base.atoms, c.ops) && c.wake == base.wake + Wakes(base.atoms, c.ops)
  }

  /** Every adoption in the log is of the batch's set-point. */
  predicate AdoptsOnly(b: Batch, ops: seq<RtOp>) {
    forall k :: 0 <= k < |ops| && ops[k].OpAdopt? ==>
      b.setTarget.Some? && ops[k].generation == b.setTarget.value.generation
  }

  /** A log of one batch, faithful to the state. */
  predicate Faithful(base: Origin, b: Batch, c: Ctl) { Logged(base, c) && AdoptsOnly(b, c.ops) }

  lemma EmitFaithful(base: Origin, b: Batch, c: Ctl, op: RtOp)
    requires Faithful(base, b, c)
    requires op.OpAdopt? ==> b.setTarget.Some? && op.generation == b.setTarget.value.generation
    ensures Faithful(base, b, Emit(c, op))
  {
    PublishOneMore(base.atoms, c.ops, op);
    WakesOneMore(base.atoms, c.ops, op);
  }

  lemma RouteFaithful(base: Origin, cfg: Config, c: Ctl, i: CycleIn)
    requires Faithful(base, i.batch, c)
    ensures Faithful(base, i.batch, Route(cfg, c, i))
  {
    var b := i.batch;
    StopsFaithful(base, cfg, c, b);
    var s := RouteStops(cfg, c, b);
    TargetFaithful(base, cfg, s, b, i.actual);
    RestFaithful(base, cfg, RouteTarget(cfg, s, b, i.actual), b);
  }

  lemma StopsFaithful(base: Origin, cfg: Config, c: Ctl, b: Batch)
    requires Faithful(base, b, c)
    ensures Faithful(base, b, RouteStops(cfg, c, b))
  {
    EmitFaithful(base, b, c.(latched := MotorStopped), OpAbort);
    var h := if b.halt then Abort(c, MotorStopped) else c;
    var k := if b.halt && b.haltSupersedes then h.(motion := ModeHalt(cfg, h.motion)) else h;
    EmitFaithful(base, b, k.(latched := MotorDisabled), OpAbort);
  }

  lemma TargetFaithful(base: Origin, cfg: Config, c: Ctl, b: Batch, actual: int)
    requires Faithful(base, b, c)
    ensures Faithful(base, b, RouteTarget(cfg, c, b, actual))
  {
    if b.setTarget.Some? && b.setTarget.value.generation != c.atoms.active {
      var r := RouteTarget(cfg, c, b, actual);
      EmitFaithful(base, b, c.(motion := r.motion, latched := NoError), OpAdopt(b.setTarget.value.generation));
    }
  }

  lemma RestFaithful(base: Origin, cfg: Config, c: Ctl, b: Batch)
    requires Faithful(base, b, c)
    ensures Faithful(base, b, RouteRest(cfg, c, b))
  {
    var v := if b.setVelocity.Some? then c.(motion := ModeSetVelocity(cfg, c.motion, b.setVelocity.value)) else c;
    assert Faithful(base, b, v);
    RefusalFaithful(base, b, v);
  }

  lemma RefusalFaithful(base: Origin, b: Batch, c: Ctl)
    requires Faithful(base, b, c)
    ensures Faithful(base, b, PublishHoming(c, NotOperational))
  {
    EmitFaithful(base, b, c.(home := PublishHoming(c, NotOperational).home), OpVerdict(false));
  }

  /** A lifecycle step publishes at most one operation, and never an adoption. */
  lemma StepEmitsAtMostOne(cfg: Config, c: Ctl, i: CycleIn)
    requires cfg.Valid()
    ensures var r := StepLifecycle(cfg, c, i);
            Quiet(c, r) || Emitted(c, r, OpAbort) || Emitted(c, r, OpVerdict(true)) || Emitted(c, r, OpVerdict(false))
  {
  }

  lemma StepFaithful(base: Origin, b: Batch, c: Ctl, r: Ctl)
    requires Faithful(base, b, c)
    requires Quiet(c, r) || Emitted(c, r, OpAbort) || Emitted(c, r, OpVerdict(true)) || Emitted(c, r, OpVerdict(false))
    ensures Faithful(base, b, r)
  {
    EmitFaithful(base, b, c, OpAbort);
    EmitFaithful(base, b, c, OpVerdict(true));
    EmitFaithful(base, b, c, OpVerdict(false));
  }

  lemma PublishFaithful(base: Origin, cfg: Config, c: Ctl, i: CycleIn)
    requires Faithful(base, i.batch, c)
    ensures Faithful(base, i.batch, PublishState(cfg, c, i))
  {
    var r := c.(ring := PushActual(c.ring, cfg.tolerance, i.actual));
    EmitFaithful(base, i.batch, r, OpComplete);
    var on := OpFaulted(i.busFault || i.status.fault);
    EmitFaithful(base, i.batch, r, on);
    EmitFaithful(base, i.batch, Emit(r, OpComplete), on);
  }

  lemma LifecycleFaithful(base: Origin, cfg: Config, s: Ctl, i: CycleIn)
    requires cfg.Valid() && Faithful(base, i.batch, s)
    ensures Faithful(base, i.batch, StepLifecycle(cfg, s, i))
  {
    StepEmitsAtMostOne(cfg, s, i);
    StepFaithful(base, i.batch, s, StepLifecycle(cfg, s, i));
  }

  lemma TrackFaithful(base: Origin, b: Batch, c: Ctl, actual: int)
    requires Faithful(base, b, c)
    ensures Faithful(base, b, Track(c, actual))
  {
  }

  lemma RoutedFaithful(base: Origin, cfg: Config, s: Ctl, i: CycleIn)
    requires cfg.Valid() && Faithful(base, i.batch, s)
    ensures Faithful(base, i.batch, AfterRouting(cfg, s, i))
  {
    LifecycleFaithful(base, cfg, s, i);
    TrackFaithful(base, i.batch, StepLifecycle(cfg, s, i), i.actual);
  }

  lemma StoppingFaithful(cfg: Config, b: Ctl, i: CycleIn)
    requires cfg.Valid() && b.ops == []
    ensures Faithful(Origin(b.atoms, b.wake), i.batch, Shutdown(cfg, b, i))
  {
  }

  /** Every cycle's published atomics are its log applied in order to the previous ones, every adoption in the log
      is the set-point that cycle drained, and the wake counter moves once for each publication that owes a
      wake. */
  lemma CycleIsItsLog(cfg: Config, c: Ctl, i: CycleIn)
    requires cfg.Valid()
    ensures var r := Cycle(cfg, c, i);
            && r.atoms == PublishAll(c.atoms, r.ops) && AdoptsOnly(i.batch, r.ops)
            && r.wake == c.wake + Wakes(c.atoms, r.ops)
  {
    var b, base := c.(ops := []), Origin(c.atoms, c.wake);
    if i.stopping {
      StoppingFaithful(cfg, b, i);
      PublishFaithful(base, cfg, Shutdown(cfg, b, i), i);
    } else {
      var s := Route(cfg, b, i);
      assert Faithful(base, i.batch, b);
      RouteFaithful(base, cfg, b, i);
      RoutedFaithful(base, cfg, s, i);
      PublishFaithful(base, cfg, AfterRouting(cfg, s, i), i);
    }
  }

  // --- once a generation is terminal -------------------------------------------------------------

  /** g can never complete any more, unless it is pushed again. */
  predicate Dead(a: Atoms, g: nat) { a.completed != g && (a.active == g ==> a.failed == g) }

  /** g can never fail any more, unless it is pushed again. */
  predicate Done(a: Atoms, g: nat) { a.failed != g && (a.active == g ==> a.completed == g) }

  lemma {:induction false} LogKeepsTerminal(a: Atoms, ops: seq<RtOp>, g: nat)
    requires g != 0 && OpAdopt(g) !in ops
    ensures Dead(a, g) ==> Dead(PublishAll(a, ops), g)
    ensures Done(a, g) ==> Done(PublishAll(a, ops), g)
  {
    if ops != [] {
      var pre := ops[..|ops| - 1];
      LogKeepsTerminal(a, pre, g);
      assert ops[|ops| - 1] != OpAdopt(g);
    }
  }

  predicate DoesNotPush(i: CycleIn, g: nat) {
    i.batch.setTarget.Some? ==> i.batch.setTarget.value.generation != g
  }

  lemma CycleKeepsTerminal(cfg: Config, c: Ctl, i: CycleIn, g: nat)
    requires cfg.Valid() && g != 0 && DoesNotPush(i, g)
    ensures Dead(c.atoms, g) ==> Dead(Cycle(cfg, c, i).atoms, g)
    ensures Done(c.atoms, g) ==> Done(Cycle(cfg, c, i).atoms, g)
  {
    CycleIsItsLog(cfg, c, i);
    LogKeepsTerminal(c.atoms, Cycle(cfg, c, i).ops, g);
  }

  lemma NextKeepsTerminal(cfg: Config, cs: seq<Ctl>, ins: seq<CycleIn>, g: nat, k: nat)
    requires cfg.Valid() && IsRun(cfg, cs, ins) && k < |ins| && g != 0 && DoesNotPush(ins[k], g)
    ensures Dead(cs[k].atoms, g) ==> Dead(cs[k + 1].atoms, g)
    ensures Done(cs[k].atoms, g) ==> Done(cs[k + 1].atoms, g)
  {
    assert CycleNo(k);
    CycleKeepsTerminal(cfg, cs[k], ins[k], g);
  }

  /** First terminal wins over whole runs: whatever statuswords and commands follow, a generation that
      ended failed is never published completed and one that ended completed is never published
      failed, as long as it is not pushed a second time. */
  lemma {:induction false} FirstTerminalWins(cfg: Config, cs: seq<Ctl>, ins: seq<CycleIn>, g: nat, k: nat, n: nat)
    requires cfg.Valid() && IsRun(cfg, cs, ins) && k <= n <= |ins| && g != 0
    requires forall j :: k <= j < |ins| ==> DoesNotPush(ins[j], g)
    ensures Dead(cs[k].atoms, g) ==> Dead(cs[n].atoms, g)
    ensures Done(cs[k].atoms, g) ==> Done(cs[n].atoms, g)
    decreases n
  {
    if n > k {
      FirstTerminalWins(cfg, cs, ins, g, k, n - 1);
      NextKeepsTerminal(cfg, cs, ins, g, n - 1);
    }
  }
}
