/** The command queue between API threads and the real-time loop, and its coalescing drain. */
module Commands {
  import opened Cia402

  datatype SetTarget = SetTarget(counts: int, profileVelocity: nat, relative: bool, generation: nat)
  datatype StartHoming = StartHoming(generation: nat, timeoutCycles: nat)

  datatype Command =
    | Target(target: SetTarget)
    | Velocity(velocity: int)
    | Home(home: StartHoming)
    | Enable
    | Disable
    | Halt
    | QuickStop
    | FaultReset
    | SetZero

  /** Coalesced result of one drain: set-points are latest-wins, discrete commands are sticky. */
  datatype Batch = Batch(
    setTarget: Option<SetTarget>,
    setVelocity: Option<int>,
    startHoming: Option<StartHoming>,
    enable: bool,
    disable: bool,
    halt: bool,
    quickStop: bool,
    faultReset: bool,
    setZero: bool,
    haltSupersedes: bool)

  const EMPTY_BATCH := Batch(None, None, None, false, false, false, false, false, false, false)

  predicate IsMotion(c: Command) { c.Target? || c.Velocity? }

  /** `v` is the payload of the last element of `q` for which `pick` is Some (None: there is none). */
  ghost predicate LastOf<T(!new)>(q: seq<Command>, pick: Command -> Option<T>, v: Option<T>) {
    match v
    case None => forall i :: 0 <= i < |q| ==> pick(q[i]) == None
    case Some(_) => exists i :: 0 <= i < |q| && pick(q[i]) == v && forall j :: i < j < |q| ==> pick(q[j]) == None
  }

  function PickTarget(c: Command): Option<SetTarget> { if c.Target? then Some(c.target) else None }
  function PickVelocity(c: Command): Option<int> { if c.Velocity? then Some(c.velocity) else None }
  function PickHome(c: Command): Option<StartHoming> { if c.Home? then Some(c.home) else None }

  /** What a drain of the FIFO content `q` must report, said over the whole queue. */
  ghost predicate Coalesces(q: seq<Command>, b: Batch) {
    && LatestWins(q, b)
    && Sticky(q, b)
    && (b.haltSupersedes <==> HaltIsLast(q))
  }

  ghost predicate LatestWins(q: seq<Command>, b: Batch) {
    && LastOf(q, PickTarget, b.setTarget)
    && LastOf(q, PickVelocity, b.setVelocity)
    && LastOf(q, PickHome, b.startHoming)
  }

  ghost predicate Sticky(q: seq<Command>, b: Batch) {
    && (b.enable <==> Enable in q)
    && (b.disable <==> Disable in q)
    && (b.halt <==> Halt in q)
    && (b.quickStop <==> QuickStop in q)
    && (b.faultReset <==> FaultReset in q)
    && (b.setZero <==> SetZero in q)
  }

  /** Some halt in the queue has no motion command after it. */
  ghost predicate HaltIsLast(q: seq<Command>) {
    exists i :: 0 <= i < |q| && q[i] == Halt && forall j :: i < j < |q| ==> !IsMotion(q[j])
  }

  /** The update the drain makes for one popped command. */
  function Absorb(b: Batch, c: Command): Batch {
    match c
    case Target(t) => b.(setTarget := Some(t), haltSupersedes := false)
    case Velocity(v) => b.(setVelocity := Some(v), haltSupersedes := false)
    case Home(h) => b.(startHoming := Some(h))
    case Enable => b.(enable := true)
    case Disable => b.(disable := true)
    case Halt => b.(halt := true, haltSupersedes := true)
    case QuickStop => b.(quickStop := true)
    case FaultReset => b.(faultReset := true)
    case SetZero => b.(setZero := true)
  }

  lemma LastOfSnoc<T(!new)>(q: seq<Command>, pick: Command -> Option<T>, v: Option<T>, c: Command)
    requires LastOf(q, pick, v)
    ensures LastOf(q + [c], pick, if pick(c) == None then v else pick(c))
  {
    var r := q + [c];
    if pick(c) != None {
      assert r[|q|] == c;
    } else if v.Some? {
      var i :| 0 <= i < |q| && pick(q[i]) == v && forall j :: i < j < |q| ==> pick(q[j]) == None;
      assert pick(r[i]) == v;
    }
  }

  lemma HaltIsLastSnoc(q: seq<Command>, c: Command)
    ensures HaltIsLast(q + [c]) <==> c == Halt || (HaltIsLast(q) && !IsMotion(c))
  {
    var r := q + [c];
    if c == Halt {
      assert r[|q|] == Halt;
    }
    if HaltIsLast(q) && !IsMotion(c) {
      var i :| 0 <= i < |q| && q[i] == Halt && forall j :: i < j < |q| ==> !IsMotion(q[j]);
      assert r[i] == Halt;
    }
    if HaltIsLast(r) && c != Halt {
      var i :| 0 <= i < |r| && r[i] == Halt && forall j :: i < j < |r| ==> !IsMotion(r[j]);
      assert q[i] == Halt;
      assert !IsMotion(r[|q|]);
      forall j | i < j < |q| ensures !IsMotion(q[j]) { assert r[j] == q[j]; }
    }
  }

  lemma AbsorbLatestWins(q: seq<Command>, b: Batch, c: Command)
    requires LatestWins(q, b)
    ensures LatestWins(q + [c], Absorb(b, c))
  {
    AbsorbTarget(q, b, c);
    AbsorbVelocity(q, b, c);
    AbsorbHome(q, b, c);
  }

  lemma AbsorbTarget(q: seq<Command>, b: Batch, c: Command)
    requires LastOf(q, PickTarget, b.setTarget)
    ensures LastOf(q + [c], PickTarget, Absorb(b, c).setTarget)
  {
    LastOfSnoc(q, PickTarget, b.setTarget, c);
    assert Absorb(b, c).setTarget == if PickTarget(c) == None then b.setTarget else PickTarget(c);
  }

  lemma AbsorbVelocity(q: seq<Command>, b: Batch, c: Command)
    requires LastOf(q, PickVelocity, b.setVelocity)
    ensures LastOf(q + [c], PickVelocity, Absorb(b, c).setVelocity)
  {
    LastOfSnoc(q, PickVelocity, b.setVelocity, c);
    assert Absorb(b, c).setVelocity == if PickVelocity(c) == None then b.setVelocity else PickVelocity(c);
  }

  lemma AbsorbHome(q: seq<Command>, b: Batch, c: Command)
    requires LastOf(q, PickHome, b.startHoming)
    ensures LastOf(q + [c], PickHome, Absorb(b, c).startHoming)
  {
    LastOfSnoc(q, PickHome, b.startHoming, c);
    assert Absorb(b, c).startHoming == if PickHome(c) == None then b.startHoming else PickHome(c);
  }

  lemma InOneMore(q: seq<Command>, c: Command, d: Command)
    ensures d in q + [c] <==> d in q || d == c
  {
  }

  lemma AbsorbSticky(q: seq<Command>, b: Batch, c: Command)
    requires Sticky(q, b)
    ensures Sticky(q + [c], Absorb(b, c))
  {
    InOneMore(q, c, Enable);
    InOneMore(q, c, Disable);
    InOneMore(q, c, Halt);
    InOneMore(q, c, QuickStop);
    InOneMore(q, c, FaultReset);
    InOneMore(q, c, SetZero);
  }

  /** One popped command turns the report of `q` into the report of `q + [c]`. */
  lemma AbsorbCoalesces(q: seq<Command>, b: Batch, c: Command)
    requires Coalesces(q, b)
    ensures Coalesces(q + [c], Absorb(b, c))
  {
    AbsorbLatestWins(q, b, c);
    AbsorbSticky(q, b, c);
    HaltIsLastSnoc(q, c);
  }

  /** Bounded FIFO; a push into a full ring is a dropped command. */
  class CommandQueue {
    const capacity: nat
    var queue: seq<Command>

    constructor (capacity: nat)
      ensures this.capacity == capacity && queue == []
    {
      this.capacity := capacity;
      queue := [];
    }

    method Push(c: Command) returns (accepted: bool)
      modifies this
      ensures accepted <==> old(|queue|) < capacity
      ensures queue == if accepted then old(queue) + [c] else old(queue)
    {
      accepted := |queue| < capacity;
      if accepted {
        queue := queue + [c];
      }
    }

    /** Pops everything queued and coalesces it in FIFO order. */
    method Drain() returns (batch: Batch)
      modifies this
      ensures queue == []
      ensures Coalesces(old(queue), batch)
    {
      batch := EMPTY_BATCH;
      ghost var popped := [];
      while queue != []
        invariant popped + queue == old(queue)
        invariant Coalesces(popped, batch)
        decreases |queue|
      {
        var c := queue[0];
        AbsorbCoalesces(popped, batch, c);
        popped := popped + [c];
        batch := Absorb(batch, c);
        queue := queue[1..];
      }
      assert popped == old(queue);
    }
  }

  /** The report is determined by the queue content: two batches that coalesce the same queue agree. */
  lemma CoalescesIsUnique(q: seq<Command>, a: Batch, b: Batch)
    requires Coalesces(q, a) && Coalesces(q, b)
    ensures a == b
  {
    LastOfUnique(q, PickTarget, a.setTarget, b.setTarget);
    LastOfUnique(q, PickVelocity, a.setVelocity, b.setVelocity);
    LastOfUnique(q, PickHome, a.startHoming, b.startHoming);
  }

  lemma LastOfUnique<T(!new)>(q: seq<Command>, pick: Command -> Option<T>, u: Option<T>, v: Option<T>)
    requires LastOf(q, pick, u) && LastOf(q, pick, v)
    ensures u == v
  {
    if u.Some? && v.Some? {
      var i :| 0 <= i < |q| && pick(q[i]) == u && forall j :: i < j < |q| ==> pick(q[j]) == None;
      var k :| 0 <= k < |q| && pick(q[k]) == v && forall j :: k < j < |q| ==> pick(q[j]) == None;
      assert i == k;
    }
  }
}
