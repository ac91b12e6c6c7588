/** A controller cycle is one schedule of the loop's atomic steps. */
module LoopSchedule {
  import opened Cia402
  import opened Commands
  import opened Published
  import opened Controller
  import opened OpLog
  import MP = MoveProtocol

  /** Publish each operation of the log, each followed by its wake when it owes one. */
  function Publications(ops: seq<RtOp>): seq<MP.Act> {
    if ops == [] then [] else [MP.Loop(MP.Do(ops[0])), MP.Loop(MP.Wake)] + Publications(ops[1..])
  }

  /** The adoptions of the log are of the drained set-point. */
  predicate Adoptable(target: Option<nat>, ops: seq<RtOp>) {
    forall k :: 0 <= k < |ops| && ops[k].OpAdopt? ==> target == Some(ops[k].generation)
  }

  lemma {:induction false} PublishFromFront(a: Atoms, ops: seq<RtOp>)
    requires ops != []
    ensures PublishAll(a, ops) == PublishAll(Publish(a, ops[0]), ops[1..])
    decreases |ops|
  {
    if |ops| > 1 {
      var pre := ops[..|ops| - 1];
      PublishFromFront(a, pre);
      assert pre[1..] == ops[1..][..|ops| - 2];
    } else {
      assert ops[..0] == [] && ops[1..] == [];
      assert PublishAll(a, ops[..0]) == a;
    }
  }

  /** Equal in everything but the homing state, which API calls write too. */
  predicate Alike(a: Atoms, b: Atoms) { a.(homing := b.homing) == b }

  lemma PublishAlike(a: Atoms, b: Atoms, op: RtOp)
    requires Alike(a, b)
    ensures Alike(Publish(a, op), Publish(b, op)) && Bumps(a, op) == Bumps(b, op)
  {
  }

  /** The loop's own steps of a schedule. */
  function LoopSteps(acts: seq<MP.Act>): seq<MP.Act> {
    if acts == [] then [] else (if acts[0].Loop? then [acts[0]] else []) + LoopSteps(acts[1..])
  }

  lemma ApiLeavesLoop(s: MP.Sys, t: nat, choice: bool)
    ensures var r := MP.Next(s, MP.Api(t, choice)); r.sh.rt == s.sh.rt && Alike(r.sh.atoms, s.sh.atoms)
  {
  }

  /** What is left of the loop's steps: the rest of the log, after a wake if one publication is behind. */
  function Left(ops: seq<RtOp>, waking: bool): seq<MP.Act> {
    (if waking then [MP.Loop(MP.Wake)] else []) + Publications(ops)
  }

  /** Any schedule whose loop steps publish the log leaves the log published and every wake sent. */
  lemma {:induction false} PublicationsReach(s: MP.Sys, a: Atoms, acts: seq<MP.Act>, ops: seq<RtOp>, waking: bool)
    requires LoopSteps(acts) == Left(ops, waking) && (s.sh.rt.owed ==> waking)
    requires Alike(s.sh.atoms, a) && Adoptable(s.sh.rt.target, ops)
    ensures var r := MP.Run(s, acts); Alike(r.sh.atoms, PublishAll(a, ops)) && !r.sh.rt.owed
    decreases |acts|
  {
    if acts == [] {
      assert ops == [] && !waking by {
        assert |Left(ops, waking)| == 0;
      }
    } else {
      MP.RunFirst(s, acts);
      var t := MP.Next(s, acts[0]);
      if acts[0].Api? {
        ApiLeavesLoop(s, acts[0].call, acts[0].choice);
        PublicationsReach(t, a, acts[1..], ops, waking);
      } else if waking {
        LoopTail(acts, ops, waking);
        PublicationsReach(t, a, acts[1..], ops, false);
      } else {
        LoopTail(acts, ops, waking);
        PublishAlike(s.sh.atoms, a, ops[0]);
        PublishFromFront(a, ops);
        PublicationsReach(t, Publish(a, ops[0]), acts[1..], ops[1..], true);
      }
    }
  }

  lemma SameHeadAndTail(x: MP.Act, xs: seq<MP.Act>, y: MP.Act, ys: seq<MP.Act>)
    requires [x] + xs == [y] + ys
    ensures x == y && xs == ys
  {
    assert ([x] + xs)[0] == x && ([y] + ys)[0] == y;
    assert ([x] + xs)[1..] == xs && ([y] + ys)[1..] == ys;
  }

  lemma LeftStarts(ops: seq<RtOp>, waking: bool)
    requires waking || ops != []
    ensures Left(ops, waking) == if waking then [MP.Loop(MP.Wake)] + Left(ops, false)
                                 else [MP.Loop(MP.Do(ops[0]))] + Left(ops[1..], true)
  {
    assert Left(ops, false) == Publications(ops);
    if !waking {
      assert Left(ops[1..], true) == [MP.Loop(MP.Wake)] + Publications(ops[1..]);
    }
  }

  /** The first loop step of a schedule, and those after it. */
  lemma LoopTail(acts: seq<MP.Act>, ops: seq<RtOp>, waking: bool)
    requires acts != [] && acts[0].Loop? && LoopSteps(acts) == Left(ops, waking)
    ensures waking ==> acts[0] == MP.Loop(MP.Wake) && LoopSteps(acts[1..]) == Left(ops, false)
    ensures !waking ==> ops != [] && acts[0] == MP.Loop(MP.Do(ops[0])) && LoopSteps(acts[1..]) == Left(ops[1..], true)
  {
    assert LoopSteps(acts) == [acts[0]] + LoopSteps(acts[1..]);
    assert |LoopSteps(acts)| >= 1;
    if waking {
      LeftStarts(ops, true);
      SameHeadAndTail(acts[0], LoopSteps(acts[1..]), MP.Loop(MP.Wake), Left(ops, false));
    } else {
      assert ops != [];
      LeftStarts(ops, false);
      SameHeadAndTail(acts[0], LoopSteps(acts[1..]), MP.Loop(MP.Do(ops[0])), Left(ops[1..], true));
    }
  }

  /** The batch's set-point is the last one in the protocol's queue. */
  predicate Drained(b: Batch, queue: seq<nat>) {
    match b.setTarget
    case None => queue == []
    case Some(t) => queue != [] && queue[|queue| - 1] == t.generation
  }

  lemma DrainTakesBatch(s: MP.Sys, b: Batch, ops: seq<RtOp>)
    requires !s.sh.rt.owed && Drained(b, s.sh.queue) && AdoptsOnly(b, ops)
    ensures var r := MP.Next(s, MP.Loop(MP.Drain));
            !r.sh.rt.owed && r.sh.atoms == s.sh.atoms && Adoptable(r.sh.rt.target, ops) && r.sh.queue == []
  {
  }

  /** Whatever the inputs, and whatever steps API calls take before the drain and between any two
      publications, the loop's steps of a controller cycle (drain, then each publication of its log with
      its wake) leave exactly the atomics of the cycle, up to the homing state the calls write themselves,
      and every wake sent. So what holds of all schedules holds with the real controller as the loop. */
  lemma CycleIsSchedule(cfg: Config, c: Ctl, i: CycleIn, s: MP.Sys, before: seq<MP.Act>, after: seq<MP.Act>)
    requires cfg.Valid() && Alike(s.sh.atoms, c.atoms) && !s.sh.rt.owed
    requires LoopSteps(before) == [] && LoopSteps(after) == Publications(Cycle(cfg, c, i).ops)
    requires Drained(i.batch, MP.Run(s, before).sh.queue)
    ensures var r := MP.Run(s, before + [MP.Loop(MP.Drain)] + after);
            Alike(r.sh.atoms, Cycle(cfg, c, i).atoms) && !r.sh.rt.owed
  {
    var ops := Cycle(cfg, c, i).ops;
    CycleIsItsLog(cfg, c, i);
    ApiBefore(s, before, c.atoms);
    var d := MP.Run(s, before);
    DrainTakesBatch(d, i.batch, ops);
    PublicationsReach(MP.Next(d, MP.Loop(MP.Drain)), c.atoms, after, ops, false);
    MP.RunInTwo(s, before + [MP.Loop(MP.Drain)], after);
    MP.RunInTwo(s, before, [MP.Loop(MP.Drain)]);
    MP.RunFirst(d, [MP.Loop(MP.Drain)]);
    assert [MP.Loop(MP.Drain)][1..] == [];
  }

  lemma {:induction false} ApiBefore(s: MP.Sys, acts: seq<MP.Act>, a: Atoms)
    requires LoopSteps(acts) == [] && Alike(s.sh.atoms, a) && !s.sh.rt.owed
    ensures var r := MP.Run(s, acts); Alike(r.sh.atoms, a) && !r.sh.rt.owed
    decreases |acts|
  {
    if acts != [] {
      assert acts[0].Api?;
      MP.RunFirst(s, acts);
      ApiLeavesLoop(s, acts[0].call, acts[0].choice);
      ApiBefore(MP.Next(s, acts[0]), acts[1..], a);
    }
  }
}
