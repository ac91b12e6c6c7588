/** The motion mode a controller holds: a profile or a cyclic mode object behind one interface. */
module SelectedModes {
  import opened Cia402
  import opened Sequencer
  import opened MotionMode
  import opened Controller

  class SelectedMode {
    const profile: ProfilePositionMode?
    const cyclic: CyclicPositionMode?
    /** The mode as a value, kept in step with the object. */
    ghost var value: Motion

    /** Exactly one mode, configured as the controller is. */
    ghost predicate Valid(cfg: Config)
      reads Footprint()
    {
      && (profile == null <==> cyclic != null)
      && (profile != null ==> profile.quickStopDecel == cfg.quickStopDecel)
      && (cyclic != null ==> cyclic.Valid() && cyclic.params == cfg.params)
      && value == Current()
    }

    /** The held object's value. */
    ghost function Current(): Motion
      requires profile == null <==> cyclic != null
      reads Footprint()
    {
      if profile != null then Profile(profile.Value()) else Cyclic(cyclic.Value())
    }

    /** The objects a mode call may change. */
    ghost function Footprint(): set<object> {
      {this}
      + (if profile != null then {profile, profile.sequencer} else {})
      + (if cyclic != null then {cyclic, cyclic.generator} else {})
    }

    /** A fresh profile or cyclic mode, reset. */
    constructor (cfg: Config, isProfile: bool)
      ensures Valid(cfg) && fresh(Footprint()) && (value.Profile? <==> isProfile) && value == ModeReset(value)
    {
      if isProfile {
        var m := new ProfilePositionMode(cfg.quickStopDecel);
        profile, cyclic, value := m, null, Profile(m.Value());
      } else {
        var m := new CyclicPositionMode(cfg.params);
        profile, cyclic, value := null, m, Cyclic(m.Value());
      }
    }

    function Commanded(ghost cfg: Config): (r: int)
      requires Valid(cfg)
      reads Footprint()
      ensures r == CommandedMode(value)
    {
      if profile != null then profile.intent else CYCLIC_SYNC_POSITION
    }

    function Target(ghost cfg: Config): (r: int)
      requires Valid(cfg)
      reads Footprint()
      ensures r == ModeTarget(value)
    {
      if profile != null then profile.target else cyclic.generator.goal
    }

    function IsTargetReached(ghost cfg: Config, fb: Feedback): (r: bool)
      requires Valid(cfg)
      reads Footprint()
      ensures r <==> ModeReached(value, fb)
    {
      if profile != null then profile.IsTargetReached(fb) else cyclic.IsTargetReached(fb)
    }

    function Fault(ghost cfg: Config): (r: MotionFault)
      requires Valid(cfg)
      reads Footprint()
      ensures r == ModeFault(value)
    {
      if profile != null then profile.Fault() else NoFault
    }

    method Reset(ghost cfg: Config)
      requires Valid(cfg)
      modifies Footprint()
      ensures Valid(cfg)
      ensures value == ModeReset(old(value))
    {
      if profile != null {
        profile.Reset();
      } else {
        cyclic.Reset();
      }
      value := Current();
    }

    method GoTo(ghost cfg: Config, target: int, velocity: nat)
      requires Valid(cfg)
      modifies Footprint()
      ensures Valid(cfg)
      ensures value == ModeGoTo(cfg, old(value), target, velocity)
    {
      if profile != null {
        profile.GoTo(target, velocity);
      } else {
        cyclic.GoTo(target, velocity);
      }
      value := Current();
    }

    method RunAt(ghost cfg: Config, velocity: int)
      requires Valid(cfg)
      modifies Footprint()
      ensures Valid(cfg)
      ensures value == ModeSetVelocity(cfg, old(value), velocity)
    {
      if profile != null {
        profile.RunAt(velocity);
      } else {
        cyclic.RunAt(velocity);
      }
      value := Current();
    }

    method Halt(ghost cfg: Config)
      requires Valid(cfg)
      modifies Footprint()
      ensures Valid(cfg)
      ensures value == ModeHalt(cfg, old(value))
    {
      if profile != null {
        profile.Halt();
      } else {
        cyclic.Halt();
      }
      value := Current();
    }

    /** One Operational cycle of the mode. */
    method Advance(ghost cfg: Config, img: Image, fb: Feedback) returns (out: Image, stopRequested: bool)
      requires Valid(cfg)
      modifies Footprint()
      ensures Valid(cfg)
      ensures ModeOut(value, out, stopRequested) == ModeStep(cfg, old(value), img, fb)
    {
      if profile != null {
        out, stopRequested := profile.Advance(img, fb);
      } else {
        out := cyclic.Advance(img);
        stopRequested := false;
      }
      value := Current();
    }

    /** Not enabled: the command objects follow the actual, in the mode that streams them. */
    method Track(ghost cfg: Config, img: Image, actual: int) returns (out: Image)
      requires Valid(cfg)
      modifies Footprint()
      ensures Valid(cfg)
      ensures match old(value)
              case Profile(m) => value == Profile(m) && out == img
              case Cyclic(m) =>
                var o := CyclicTrack(m, img, actual);
                value == Cyclic(o.mode) && out == o.image
    {
      if profile != null {
        out := img;
      } else {
        out := cyclic.Track(img, actual);
      }
      value := Current();
    }

    /** One cycle of the controlled stop. */
    method AdvanceShutdown(ghost cfg: Config, img: Image, fb: Feedback) returns (out: Image, stopRequested: bool)
      requires Valid(cfg)
      modifies Footprint()
      ensures Valid(cfg)
      ensures ModeOut(value, out, stopRequested) == ModeShutdown(cfg, old(value), img, fb)
    {
      if profile != null {
        out, stopRequested := profile.AdvanceShutdown(img, fb);
      } else {
        out := cyclic.AdvanceShutdown(img, fb.status, fb.actual);
        stopRequested := false;
      }
      value := Current();
    }
  }
}
