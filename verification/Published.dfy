/** The atomics the real-time loop publishes to API threads, and the operations that write them. */
module Published {

  datatype HomingState = NeverHomed | Running | Attained | Failed

  datatype Atoms = Atoms(
    active: nat,
    completed: nat,
    failed: nat,
    homing: HomingState,
    faulted: bool,
    rtExited: bool)

  const FRESH_ATOMS := Atoms(0, 0, 0, NeverHomed, false, false)

  /** One publication of the real-time loop. */
  datatype RtOp =
    | OpAbort                   // fail the active move
    | OpAdopt(generation: nat)  // adopt a drained set-point
    | OpComplete                // the active move reached its target
    | OpVerdict(attained: bool) // a homing run ended
    | OpFaulted(on: bool)       // drive or bus fault level of this cycle
    | OpExit                    // the loop is leaving

  predicate MoveLive(a: Atoms) { a.active != 0 && a.completed != a.active && a.failed != a.active }

  function Publish(a: Atoms, op: RtOp): Atoms {
    match op
    case OpAbort => if a.active != 0 && a.completed != a.active then a.(failed := a.active) else a
    case OpAdopt(g) => a.(active := g)
    case OpComplete => if MoveLive(a) then a.(completed := a.active) else a
    case OpVerdict(ok) => a.(homing := if ok then Attained else Failed)
    case OpFaulted(on) => a.(faulted := on)
    case OpExit => a.(rtExited := true)
  }

  /** Whether the publication is followed by a wake bump. */
  predicate Bumps(a: Atoms, op: RtOp) {
    match op
    case OpAbort => a.active != 0 && a.completed != a.active
    case OpAdopt(_) => false
    case OpComplete => MoveLive(a)
    case OpVerdict(_) => true
    case OpFaulted(on) => on && !a.faulted
    case OpExit => true
  }

  function PublishAll(a: Atoms, ops: seq<RtOp>): Atoms {
    if ops == [] then a else Publish(PublishAll(a, ops[..|ops| - 1]), ops[|ops| - 1])
  }

  lemma PublishOneMore(a: Atoms, ops: seq<RtOp>, op: RtOp)
    ensures PublishAll(a, ops + [op]) == Publish(PublishAll(a, ops), op)
  {
    assert (ops + [op])[..|ops|] == ops;
  }
}
