/** The per-cycle set-point source of cyclic position drives, over real positions and velocities. */
module Trapezoid {

  /** Commanded position (counts) and velocity (counts/s). */
  datatype Kinematic = Kinematic(position: real, velocity: real)

  datatype MotionPhase = Holding | Positioning | VelocityRun

  datatype Generator = Generator(
    state: Kinematic,
    vMax: real,
    accel: real,
    vTarget: real,
    goal: int,
    phase: MotionPhase)

  /** The closed-form positioning profile, sampled dt ahead: (dt, vMax, accel, state, goal) -> state. */
  type Profile = (real, real, real, Kinematic, Kinematic) -> Kinematic

  // --- the int32 wire value ----------------------------------------------------

  /** Nearest integer, halves away from zero. */
  function Round(p: real): int {
    if p >= 0.0 then (p + 0.5).Floor else -((-p + 0.5).Floor)
  }

  predicate IsInt32(n: int) { -0x8000_0000 <= n < 0x8000_0000 }

  /** Two's-complement int32 of any integer. */
  function Wrap32(n: int): (r: int)
    ensures IsInt32(r) && (r - n) % 0x1_0000_0000 == 0
  {
    (n + 0x8000_0000) % 0x1_0000_0000 - 0x8000_0000
  }

  function ToWire(p: real): int { Wrap32(Round(p)) }

  lemma WireOfCount(n: int)
    requires IsInt32(n)
    ensures ToWire(n as real) == n
  {
    if n >= 0 {
      assert (n as real + 0.5).Floor == n;
    } else {
      assert ((-n) as real + 0.5).Floor == -n;
      assert -(n as real) == (-n) as real;
    }
  }

  // --- commands and one step, as functions --------------------------------------

  function Reseed(g: Generator, position: int): Generator {
    Generator(Kinematic(position as real, 0.0), g.vMax, g.accel, 0.0, position, Holding)
  }

  predicate ValidLimit(v: real) { v > 0.0 }

  /** A refused goal leaves the generator unchanged. */
  function SetGoal(g: Generator, goal: int, vMax: real, accel: real): Generator {
    if ValidLimit(vMax) && ValidLimit(accel) then
      g.(goal := goal, vMax := vMax, accel := accel, phase := Positioning)
    else g
  }

  function SetVelocity(g: Generator, vTarget: real, accel: real): Generator {
    if !ValidLimit(accel) then g
    else if vTarget == 0.0 && g.state.velocity == 0.0 then
      g.(vTarget := vTarget, accel := accel, goal := ToWire(g.state.position), phase := Holding)
    else g.(vTarget := vTarget, accel := accel, phase := VelocityRun)
  }

  function Stop(g: Generator, accel: real): Generator {
    SetVelocity(g, 0.0, if ValidLimit(accel) then accel else g.accel)
  }

  function Clamp(x: real, bound: real): real {
    if x > bound then bound else if x < -bound then -bound else x
  }

  /** Exact kinematics of a step of constant acceleration that changes the velocity by dv. */
  function Moved(k: Kinematic, dv: real, dt: real): Kinematic {
    Kinematic(k.position + k.velocity * dt + 0.5 * dv * dt, k.velocity + dv)
  }

  lemma MovedAlike(k: Kinematic, dv: real, e: real, dt: real)
    requires dv == e
    ensures Moved(k, dv, dt) == Moved(k, e, dt)
  {
  }

  /** Constant-acceleration ramp of one step towards vTarget. */
  function RampStep(k: Kinematic, vTarget: real, accel: real, dt: real): Kinematic {
    Moved(k, Clamp(vTarget - k.velocity, accel * dt), dt)
  }

  function StepGenerator(g: Generator, profile: Profile, dt: real): Generator {
    if g.phase == Holding || dt <= 0.0 then g
    else if g.phase == Positioning then
      var goal := Kinematic(g.goal as real, 0.0);
      var s := profile(dt, g.vMax, g.accel, g.state, goal);
      g.(state := s, phase := if s == goal then Holding else Positioning)
    else
      var s := RampStep(g.state, g.vTarget, g.accel, dt);
      if g.vTarget == 0.0 && s.velocity == 0.0 then
        g.(state := s, goal := ToWire(s.position), phase := Holding)
      else g.(state := s)
  }

  /** The value 0x607A carries for this generator. */
  function WirePosition(g: Generator): int { ToWire(g.state.position) }

  /** A holding generator is at rest; every command and step keeps this, for every profile. */
  predicate RestsWhenHolding(g: Generator) { g.phase == Holding ==> g.state.velocity == 0.0 }

  lemma HoldingIsRest(g: Generator, profile: Profile, dt: real, position: int, v: real, a: real)
    requires RestsWhenHolding(g)
    ensures RestsWhenHolding(Reseed(g, position))
    ensures RestsWhenHolding(SetGoal(g, position, v, a))
    ensures RestsWhenHolding(SetVelocity(g, v, a))
    ensures RestsWhenHolding(Stop(g, a))
    ensures RestsWhenHolding(StepGenerator(g, profile, dt))
  {
  }

  /** And its goal is the count it holds on the wire, however the motion ended; kept by everything too. */
  predicate HoldsItsGoal(g: Generator) { IsInt32(g.goal) && (g.phase == Holding ==> g.goal == WirePosition(g)) }

  lemma HoldingIsAtGoal(g: Generator, profile: Profile, dt: real, position: int, v: real, a: real)
    requires HoldsItsGoal(g) && IsInt32(position)
    ensures HoldsItsGoal(Reseed(g, position))
    ensures HoldsItsGoal(SetGoal(g, position, v, a))
    ensures HoldsItsGoal(SetVelocity(g, v, a))
    ensures HoldsItsGoal(Stop(g, a))
    ensures HoldsItsGoal(StepGenerator(g, profile, dt))
  {
    WireOfCount(position);
    WireOfCount(g.goal);
  }

  // --- the object ------------------------------------------------------------

  class TrapezoidGenerator {
    const profile: Profile
    var state: Kinematic
    var vMax: real
    var accel: real
    var vTarget: real
    var goal: int
    var phase: MotionPhase

    ghost function Value(): Generator
      reads this
    {
      Generator(state, vMax, accel, vTarget, goal, phase)
    }

    constructor (profile: Profile)
      ensures this.profile == profile
      ensures Value() == Generator(Kinematic(0.0, 0.0), 1.0, 1.0, 0.0, 0, Holding)
    {
      this.profile := profile;
      state, vMax, accel := Kinematic(0.0, 0.0), 1.0, 1.0;
      vTarget, goal, phase := 0.0, 0, Holding;
    }

    method ReseedTo(position: int)
      modifies this
      ensures Value() == Reseed(old(Value()), position)
    {
      state := Kinematic(position as real, 0.0);
      goal := position;
      vTarget := 0.0;
      phase := Holding;
    }

    method Retarget(newGoal: int, newVMax: real, newAccel: real) returns (accepted: bool)
      modifies this
      ensures accepted <==> newVMax > 0.0 && newAccel > 0.0
      ensures Value() == SetGoal(old(Value()), newGoal, newVMax, newAccel)
    {
      if !ValidLimit(newVMax) || !ValidLimit(newAccel) {
        return false;
      }
      goal, vMax, accel := newGoal, newVMax, newAccel;
      phase := Positioning;
      return true;
    }

    method RunAt(newTarget: real, newAccel: real) returns (accepted: bool)
      modifies this
      ensures accepted <==> newAccel > 0.0
      ensures Value() == SetVelocity(old(Value()), newTarget, newAccel)
    {
      if !ValidLimit(newAccel) {
        return false;
      }
      vTarget, accel := newTarget, newAccel;
      if newTarget == 0.0 && state.velocity == 0.0 {
        goal := ToWire(state.position);
        phase := Holding;
      } else {
        phase := VelocityRun;
      }
      return true;
    }

    method RampToRest(newAccel: real)
      modifies this
      ensures Value() == Stop(old(Value()), newAccel)
    {
      var accepted := RunAt(0.0, newAccel);
      if !accepted {
        accepted := RunAt(0.0, accel);
      }
    }

    method RampOnce(dt: real)
      modifies this`state
      ensures state == RampStep(old(state), vTarget, accel, dt)
    {
      var dvMax := accel * dt;
      var dv := vTarget - state.velocity;
      if dv > dvMax {
        dv := dvMax;
      } else if dv < -dvMax {
        dv := -dvMax;
      }
      MovedAlike(state, dv, Clamp(vTarget - state.velocity, accel * dt), dt);
      state := Moved(state, dv, dt);
    }

    /** Advances one cycle and returns the position to command this cycle. */
    method Advance(dt: real) returns (wire: int)
      modifies this
      ensures Value() == StepGenerator(old(Value()), profile, dt)
      ensures wire == WirePosition(Value())
    {
      if phase == Holding || !(dt > 0.0) {
        return ToWire(state.position);
      }
      if phase == Positioning {
        var target := Kinematic(goal as real, 0.0);
        state := profile(dt, vMax, accel, state, target);
        if state == target {
          phase := Holding;
        }
        return ToWire(state.position);
      }
      RampOnce(dt);
      if vTarget == 0.0 && state.velocity == 0.0 {
        goal := ToWire(state.position);
        phase := Holding;
      }
      return ToWire(state.position);
    }
  }

  // --- the stop ramp -----------------------------------------------------------

  function Abs(x: real): real { if x < 0.0 then -x else x }

  /** Smallest integer not below x. */
  function Ceiling(x: real): (n: int)
    ensures n as real - 1.0 < x <= n as real
  {
    -((-x).Floor)
  }

  function Ramp(k: Kinematic, accel: real, dt: real, n: nat): Kinematic
    decreases n
  {
    if n == 0 then k else Ramp(RampStep(k, 0.0, accel, dt), accel, dt, n - 1)
  }

  function Mirror(k: Kinematic): Kinematic { Kinematic(-k.position, -k.velocity) }

  lemma MirrorStep(k: Kinematic, accel: real, dt: real)
    requires accel * dt > 0.0
    ensures RampStep(Mirror(k), 0.0, accel, dt) == Mirror(RampStep(k, 0.0, accel, dt))
  {
    var v := k.velocity;
    var a := Clamp(0.0 - v, accel * dt);
    assert Clamp(0.0 - (-v), accel * dt) == -a;
    assert (-v) * dt == -(v * dt);
    assert 0.5 * (-a) * dt == -(0.5 * a * dt);
  }

  /** A ramp from -v is the ramp from v, reflected. */
  lemma {:induction false} RampMirror(k: Kinematic, accel: real, dt: real, n: nat)
    requires accel * dt > 0.0
    ensures Ramp(Mirror(k), accel, dt, n) == Mirror(Ramp(k, accel, dt, n))
    decreases n
  {
    if n > 0 {
      MirrorStep(k, accel, dt);
      RampMirror(RampStep(k, 0.0, accel, dt), accel, dt, n - 1);
    }
  }

  /** `moved` is v^2 / 2a up to a dt^2 / 8 more. */
  predicate StopDistance(v: real, moved: real, accel: real, dt: real)
    requires accel > 0.0
  {
    v * v / (2.0 * accel) <= moved <= v * v / (2.0 * accel) + accel * dt * dt / 8.0
  }

  /** The same, multiplied out. */
  predicate TwiceDistance(v: real, moved: real, accel: real, dt: real) {
    v * v <= 2.0 * accel * moved <= v * v + accel * dt * (accel * dt) / 4.0
  }

  /** A full step from v > d sheds d and travels (v - d/2) dt. */
  lemma FullStep(k: Kinematic, accel: real, dt: real)
    requires accel > 0.0 && dt > 0.0 && k.velocity > accel * dt
    ensures var j := RampStep(k, 0.0, accel, dt);
            && j.velocity == k.velocity - accel * dt
            && 2.0 * accel * (j.position - k.position) == k.velocity * k.velocity - j.velocity * j.velocity
  {
    var v, d := k.velocity, accel * dt;
    var j := RampStep(k, 0.0, accel, dt);
    assert d > 0.0;
    assert j.velocity == v - d;
    var moved := v * dt + 0.5 * (-d) * dt;
    assert j.position == k.position + moved;
    assert accel * moved == v * d - 0.5 * d * d by {
      assert accel * (v * dt) == v * d;
      assert accel * (0.5 * (-d) * dt) == -0.5 * d * d;
    }
    assert (v - d) * (v - d) == v * v - 2.0 * v * d + d * d;
  }

  /** The last step from 0 < v <= d lands on rest after v dt / 2. */
  lemma LastStep(k: Kinematic, accel: real, dt: real)
    requires accel > 0.0 && dt > 0.0 && 0.0 < k.velocity <= accel * dt
    ensures var j := RampStep(k, 0.0, accel, dt);
            j.velocity == 0.0 && TwiceDistance(k.velocity, j.position - k.position, accel, dt)
  {
    var v, d := k.velocity, accel * dt;
    var j := RampStep(k, 0.0, accel, dt);
    var moved := v * dt + 0.5 * (-v) * dt;
    assert j.position == k.position + moved;
    assert 2.0 * accel * moved == v * d by {
      assert moved == 0.5 * v * dt;
      assert 2.0 * accel * (0.5 * v * dt) == v * d;
    }
    assert v * v <= v * d;
    var h := v - d / 2.0;
    assert h * h >= 0.0;
    assert h * h == v * v - v * d + d * d / 4.0;
  }

  /** v is shed in exactly n steps of at most d: n - 1 full ones and a last one. */
  predicate ShedIn(v: real, d: real, n: nat)
    decreases n
  {
    if n == 0 then v == 0.0 else if n == 1 then 0.0 < v <= d else v > d && ShedIn(v - d, d, n - 1)
  }

  lemma OneStepLess(x: real, d: real)
    ensures (x - 1.0) * d == x * d - d
  {
  }

  lemma {:induction false} ShedInCeiling(v: real, d: real, n: nat)
    requires d > 0.0 && v > 0.0
    requires (n as real - 1.0) * d < v <= n as real * d
    ensures n >= 1 && ShedIn(v, d, n)
    decreases n
  {
    assert n == 0 ==> n as real * d == 0.0;
    if n > 1 {
      var m := (n - 1) as real;
      assert m == n as real - 1.0;
      OneStepLess(n as real, d);
      OneStepLess(m, d);
      assert (m - 1.0) * d >= 0.0;
      ShedInCeiling(v - d, d, n - 1);
    }
  }

  /** Steps until rest, and twice accel times the distance, from a velocity shed in n steps. */
  lemma {:induction false} StopRampForward(k: Kinematic, accel: real, dt: real, n: nat)
    requires accel > 0.0 && dt > 0.0 && n >= 1 && ShedIn(k.velocity, accel * dt, n)
    ensures var r := Ramp(k, accel, dt, n);
            r.velocity == 0.0 && TwiceDistance(k.velocity, r.position - k.position, accel, dt)
    decreases n
  {
    var j := RampStep(k, 0.0, accel, dt);
    if n == 1 {
      LastStep(k, accel, dt);
      assert Ramp(j, accel, dt, 0) == j;
    } else {
      FullStep(k, accel, dt);
      StopRampForward(j, accel, dt, n - 1);
      Prepend(k, j, Ramp(j, accel, dt, n - 1).position, accel, dt);
    }
  }

  lemma Prepend(k: Kinematic, j: Kinematic, end: real, accel: real, dt: real)
    requires 2.0 * accel * (j.position - k.position) == k.velocity * k.velocity - j.velocity * j.velocity
    requires TwiceDistance(j.velocity, end - j.position, accel, dt)
    ensures TwiceDistance(k.velocity, end - k.position, accel, dt)
  {
    assert 2.0 * accel * (end - k.position)
        == 2.0 * accel * (end - j.position) + 2.0 * accel * (j.position - k.position);
  }

  lemma {:induction false} NotYetAtRest(k: Kinematic, accel: real, dt: real, n: nat, m: nat)
    requires accel > 0.0 && dt > 0.0 && m < n && ShedIn(k.velocity, accel * dt, n)
    ensures Ramp(k, accel, dt, m).velocity > 0.0
    decreases m
  {
    assert accel * dt > 0.0;
    if m > 0 {
      FullStep(k, accel, dt);
      NotYetAtRest(RampStep(k, 0.0, accel, dt), accel, dt, n - 1, m - 1);
    }
  }

  /** Steps the ramp to rest takes from velocity v. */
  function StopSteps(v: real, accel: real, dt: real): (n: nat)
    requires accel > 0.0 && dt > 0.0
    ensures v != 0.0 ==> n >= 1 && ShedIn(Abs(v), accel * dt, n)
    ensures v == 0.0 ==> n == 0
  {
    var d := accel * dt;
    assert d > 0.0;
    var n := Ceiling(Abs(v) / d);
    assert n >= 0 && (v != 0.0 ==> n >= 1 && ShedIn(Abs(v), d, n)) by {
      Scale(Abs(v), d, n);
      if v != 0.0 {
        ShedInCeiling(Abs(v), d, n);
      }
    }
    n
  }

  lemma StopStepsIsCeiling(v: real, accel: real, dt: real)
    requires accel > 0.0 && dt > 0.0
    ensures accel * dt > 0.0 && StopSteps(v, accel, dt) == Ceiling(Abs(v) / (accel * dt))
    ensures v != 0.0 ==> StopSteps(v, accel, dt) >= 1 && ShedIn(Abs(v), accel * dt, StopSteps(v, accel, dt))
  {
  }

  lemma StopStepsAtMost(v: real, accel: real, dt: real, x: real)
    requires accel > 0.0 && dt > 0.0 && Abs(v) <= x * (accel * dt)
    ensures StopSteps(v, accel, dt) as real < x + 1.0
  {
    StopStepsIsCeiling(v, accel, dt);
    QuotientAtMost(Abs(v), accel * dt, x);
  }

  lemma QuotientAtMost(v: real, d: real, x: real)
    requires d > 0.0 && v <= x * d
    ensures v / d <= x
  {
    var q := v / d;
    assert q * d == v;
    if q > x {
      MulMonotone(x, q, d);
    }
  }

  lemma Scale(v: real, d: real, n: int)
    requires v >= 0.0 && d > 0.0 && n as real - 1.0 < v / d <= n as real
    ensures n >= 0 && (n as real - 1.0) * d < v <= n as real * d
  {
    var q := v / d;
    assert q * d == v;
    assert q >= 0.0;
    MulMonotone(q, n as real, d);
    MulMonotone(n as real - 1.0, q, d);
  }

  lemma MulMonotone(a: real, b: real, d: real)
    requires a <= b && d > 0.0
    ensures a * d <= b * d
    ensures a < b ==> a * d < b * d
  {
  }

  /** Distance travelled in the direction of the initial velocity. */
  function Travel(from: Kinematic, to: Kinematic): real {
    if from.velocity >= 0.0 then to.position - from.position else from.position - to.position
  }

  /** From any velocity v, the ramp to rest takes exactly ceil(|v| / (accel dt)) steps and travels at
      least v^2 / 2a and at most v^2 / 2a + a dt^2 / 8, in the direction of v. */
  lemma StopRampBound(k: Kinematic, accel: real, dt: real)
    requires accel > 0.0 && dt > 0.0
    ensures var n := StopSteps(k.velocity, accel, dt);
            && (forall m: nat :: m < n ==> Ramp(k, accel, dt, m).velocity != 0.0)
            && Ramp(k, accel, dt, n).velocity == 0.0
            && StopDistance(k.velocity, Travel(k, Ramp(k, accel, dt, n)), accel, dt)
  {
    var n := StopSteps(k.velocity, accel, dt);
    assert accel * dt > 0.0;
    if k.velocity == 0.0 {
      assert Ramp(k, accel, dt, n) == k;
      assert accel * dt * dt > 0.0;
    } else {
      var f := if k.velocity > 0.0 then k else Mirror(k);
      ForwardBound(f, accel, dt, n);
      forall m: nat | m < n ensures Ramp(k, accel, dt, m).velocity != 0.0 {
        NotYetAtRest(f, accel, dt, n, m);
        RampMirror(k, accel, dt, m);
      }
      RampMirror(k, accel, dt, n);
      MirrorDistance(k.velocity, Travel(k, Ramp(k, accel, dt, n)), accel, dt);
    }
  }

  lemma MirrorDistance(v: real, moved: real, accel: real, dt: real)
    requires accel > 0.0
    ensures StopDistance(-v, moved, accel, dt) == StopDistance(v, moved, accel, dt)
  {
    assert (-v) * (-v) == v * v;
  }

  lemma ForwardBound(k: Kinematic, accel: real, dt: real, n: nat)
    requires accel > 0.0 && dt > 0.0 && n >= 1 && ShedIn(k.velocity, accel * dt, n)
    ensures var r := Ramp(k, accel, dt, n);
            r.velocity == 0.0 && StopDistance(k.velocity, r.position - k.position, accel, dt)
  {
    StopRampForward(k, accel, dt, n);
    DivideBound(k.velocity, Ramp(k, accel, dt, n).position - k.position, accel, dt);
  }

  lemma DivideBound(v: real, moved: real, accel: real, dt: real)
    requires accel > 0.0
    requires TwiceDistance(v, moved, accel, dt)
    ensures StopDistance(v, moved, accel, dt)
  {
    var c := 2.0 * accel;
    var q := v * v / c;
    assert q * c == v * v;
    assert (moved - q) * c >= 0.0;
    var e := accel * dt * dt / 8.0;
    assert e * c == accel * dt * (accel * dt) / 4.0;
    assert (q + e - moved) * c >= 0.0;
  }
}
