/** CiA 402 device control: statusword decoding, controlword levels and the enable ladder. */
module Cia402 {

  datatype Option<+T> = None | Some(value: T)

  /** The eight drive states of the CiA 402 state machine. */
  datatype DriveState =
    | NotReadyToSwitchOn
    | SwitchOnDisabled
    | ReadyToSwitchOn
    | SwitchedOn
    | OperationEnabled
    | QuickStopActive
    | FaultReactionActive
    | Fault

  /** Modes of operation (0x6060/0x6061). */
  const PROFILE_POSITION := 1
  const PROFILE_VELOCITY := 3
  const HOMING_MODE := 6
  const CYCLIC_SYNC_POSITION := 8

  // --- statusword ------------------------------------------------------------

  /** The decoded statusword: the drive state and the bits the driver reads one by one. */
  datatype Status = Status(
    state: DriveState,
    switchedOn: bool,        // bit 1
    enabled: bool,           // bit 2
    fault: bool,             // bit 3
    switchOnDisabled: bool,  // bit 6
    targetReached: bool,     // bit 10
    ack: bool,               // bit 12: set-point acknowledged, or homing attained in homing mode
    homingError: bool)       // bit 13 in homing mode

  /** State coding of the statusword: two masks, and any unrecognised word reads as Fault. */
  function Decode(raw: bv16): DriveState {
    if raw & 0x4F == 0x00 then NotReadyToSwitchOn
    else if raw & 0x4F == 0x40 then SwitchOnDisabled
    else if raw & 0x6F == 0x21 then ReadyToSwitchOn
    else if raw & 0x6F == 0x23 then SwitchedOn
    else if raw & 0x6F == 0x27 then OperationEnabled
    else if raw & 0x6F == 0x07 then QuickStopActive
    else if raw & 0x4F == 0x0F then FaultReactionActive
    else Fault
  }

  function StatusOf(raw: bv16): Status {
    Status(Decode(raw), raw & 0x0002 != 0, raw & 0x0004 != 0, raw & 0x0008 != 0, raw & 0x0040 != 0,
           raw & 0x0400 != 0, raw & 0x1000 != 0, raw & 0x2000 != 0)
  }

  /** OperationEnabled is reported only by a word with the enabled bit set and the fault bit clear. */
  lemma EnabledStateShowsBit(raw: bv16)
    ensures StatusOf(raw).state == OperationEnabled ==> StatusOf(raw).enabled && !StatusOf(raw).fault
    ensures StatusOf(raw).state == SwitchedOn ==> StatusOf(raw).switchedOn && !StatusOf(raw).enabled
    ensures StatusOf(raw).fault ==> StatusOf(raw).state in {Fault, FaultReactionActive}
  {
  }

  // --- controlword -----------------------------------------------------------

  /** A controlword level: the four command bits and the three bits the driver toggles on top. */
  datatype ControlWord = ControlWord(command: nat, newSetpoint: bool, faultReset: bool, halt: bool)

  /** The 16-bit value written to 0x6040. */
  function Encode(cw: ControlWord): nat {
    cw.command + (if cw.newSetpoint then 0x10 else 0) + (if cw.faultReset then 0x80 else 0) +
    (if cw.halt then 0x100 else 0)
  }

  /** The value carries exactly the command bits and the three toggled ones (4, 7 and 8). */
  lemma EncodedBits(cw: ControlWord)
    requires cw.command < 0x10
    ensures var v := Encode(cw);
            && v < 0x1_0000 && v % 0x10 == cw.command
            && (v / 0x10 % 2 == 1 <==> cw.newSetpoint) && (v / 0x80 % 2 == 1 <==> cw.faultReset)
            && (v / 0x100 % 2 == 1 <==> cw.halt)
  {
  }

  const DISABLE_VOLTAGE := ControlWord(0x0, false, false, false)
  const QUICK_STOP := ControlWord(0x2, false, false, false)
  const SHUTDOWN := ControlWord(0x6, false, false, false)
  const SWITCH_ON := ControlWord(0x7, false, false, false)
  const ENABLE_OPERATION := ControlWord(0xF, false, false, false)
  const FAULT_RESET := ControlWord(0x0, false, true, false)
  /** Enable-operation with bit 2 cleared: the sequencer's quick-stop word. */
  const QUICK_STOP_RAMP := ControlWord(0xB, false, false, false)

  /** One controlword towards `goal`, planned afresh from the decoded state. */
  function Ladder(state: DriveState, goal: DriveState): (cw: ControlWord)
    ensures cw.faultReset <==> state == Fault
    ensures !cw.halt && !cw.newSetpoint
  {
    match state
    case Fault => FAULT_RESET
    case FaultReactionActive => DISABLE_VOLTAGE
    case _ =>
      match goal
      case SwitchOnDisabled => DISABLE_VOLTAGE
      case ReadyToSwitchOn => SHUTDOWN
      case QuickStopActive => QUICK_STOP
      case SwitchedOn => if state == SwitchOnDisabled then SHUTDOWN else SWITCH_ON
      case _ =>
        match state
        case SwitchOnDisabled => SHUTDOWN
        case ReadyToSwitchOn => SWITCH_ON
        case SwitchedOn => ENABLE_OPERATION
        case OperationEnabled => ENABLE_OPERATION
        case QuickStopActive => ENABLE_OPERATION
        case _ => DISABLE_VOLTAGE
  }

  // --- the ladder against the device state machine ----------------------------

  /** Device control of CiA DSP 402, section 10: the state a drive moves to on a command word. */
  function DriveNext(state: DriveState, cw: ControlWord): DriveState {
    match state
    case NotReadyToSwitchOn => SwitchOnDisabled
    case FaultReactionActive => Fault
    case Fault => if cw.faultReset then SwitchOnDisabled else Fault
    case SwitchOnDisabled => if cw.command == 0x6 then ReadyToSwitchOn else state
    case ReadyToSwitchOn =>
      if cw.command == 0x7 || cw.command == 0xF then SwitchedOn
      else if cw.command in {0x0, 0x2, 0xB} then SwitchOnDisabled else state
    case SwitchedOn =>
      if cw.command == 0xF then OperationEnabled
      else if cw.command == 0x6 then ReadyToSwitchOn
      else if cw.command in {0x0, 0x2, 0xB} then SwitchOnDisabled else state
    case OperationEnabled =>
      if cw.command == 0x7 then SwitchedOn
      else if cw.command == 0x6 then ReadyToSwitchOn
      else if cw.command == 0x0 then SwitchOnDisabled
      else if cw.command in {0x2, 0xB} then QuickStopActive else state
    case QuickStopActive =>
      if cw.command == 0xF then OperationEnabled
      else if cw.command == 0x0 then SwitchOnDisabled else state
  }

  function Climb(state: DriveState, goal: DriveState, n: nat): DriveState
    decreases n
  {
    if n == 0 then state else Climb(DriveNext(state, Ladder(state, goal)), goal, n - 1)
  }

  /** Driven by the ladder, a standard drive is in OperationEnabled after six steps from any state
      (a fault costs the reset step, a fault reaction one more), and stays there. */
  lemma {:induction false} LadderReachesOperationEnabled(state: DriveState, n: nat)
    ensures n >= 6 ==> Climb(state, OperationEnabled, n) == OperationEnabled
    ensures state == OperationEnabled ==> Climb(state, OperationEnabled, n) == OperationEnabled
    ensures state == SwitchedOn && n >= 1 ==> Climb(state, OperationEnabled, n) == OperationEnabled
    ensures state == QuickStopActive && n >= 1 ==> Climb(state, OperationEnabled, n) == OperationEnabled
    ensures state == ReadyToSwitchOn && n >= 2 ==> Climb(state, OperationEnabled, n) == OperationEnabled
    ensures state == SwitchOnDisabled && n >= 3 ==> Climb(state, OperationEnabled, n) == OperationEnabled
    ensures state in {Fault, NotReadyToSwitchOn} && n >= 4 ==> Climb(state, OperationEnabled, n) == OperationEnabled
    ensures state == FaultReactionActive && n >= 5 ==> Climb(state, OperationEnabled, n) == OperationEnabled
    decreases n
  {
    if n > 0 {
      LadderReachesOperationEnabled(DriveNext(state, Ladder(state, OperationEnabled)), n - 1);
    }
  }
}
