/**
  The numeric code tables the example scripts mirror from the projector driver:
  run states, error types, control-input and state-output signal identifiers,
  trigger types, device types, communication interfaces, and the default
  frame geometry and grayscale timing tables.

  Each enumeration is a datatype with an encoder to its integer code and a
  decoder that is its partial inverse.
*/
module DriverCodes {
  import opened Wrappers

  // ---------------------------------------------------------------- RunState

  datatype RunState = Parked | Stopped | Running | Paused

  function RunStateCode(s: RunState): (c: int)
    ensures 1 <= c <= 4
    ensures s == Stopped <==> c == 2
    ensures s == Running <==> c == 3
  {
    match s
    case Parked => 1
    case Stopped => 2
    case Running => 3
    case Paused => 4
  }

  /** Decodes a run-state code; codes outside 1..4 name no state. */
  function RunStateOfCode(c: int): (r: Option<RunState>)
    ensures r.Some? ==> RunStateCode(r.value) == c
    ensures r.None? ==> forall s: RunState :: RunStateCode(s) != c
  {
    if c == 1 then Some(Parked)
    else if c == 2 then Some(Stopped)
    else if c == 3 then Some(Running)
    else if c == 4 then Some(Paused)
    else None
  }

  lemma RunStateRoundTrip(s: RunState)
    ensures RunStateOfCode(RunStateCode(s)) == Some(s)
  {
  }

  lemma RunStateCodesDistinct(a: RunState, b: RunState)
    ensures RunStateCode(a) == RunStateCode(b) <==> a == b
  {
  }

  // --------------------------------------------------------------- ErrorType

  datatype ErrorType =
    | ErrorNone | ErrorWarning | ErrorCritical | ErrorOutOfRange | ErrorConnection
    | ErrorTimedOut | ErrorWrongDevice | ErrorInvalid | ErrorOutOfMemory
    | ErrorFilename | ErrorData | ErrorState

  /** NONE is 0, WARNING is 1, and every real error is a negative code in -10..-1. */
  function ErrorCode(e: ErrorType): (c: int)
    ensures c == 0 <==> e == ErrorNone
    ensures c == 1 <==> e == ErrorWarning
    ensures e != ErrorNone && e != ErrorWarning ==> -10 <= c <= -1
  {
    match e
    case ErrorNone => 0
    case ErrorWarning => 1
    case ErrorCritical => -1
    case ErrorOutOfRange => -2
    case ErrorConnection => -3
    case ErrorTimedOut => -4
    case ErrorWrongDevice => -5
    case ErrorInvalid => -6
    case ErrorOutOfMemory => -7
    case ErrorFilename => -8
    case ErrorData => -9
    case ErrorState => -10
  }

  function ErrorOfCode(c: int): (r: Option<ErrorType>)
    ensures r.Some? ==> ErrorCode(r.value) == c
    ensures r.None? ==> forall e: ErrorType :: ErrorCode(e) != c
  {
    match c
    case 0 => Some(ErrorNone)
    case 1 => Some(ErrorWarning)
    case -1 => Some(ErrorCritical)
    case -2 => Some(ErrorOutOfRange)
    case -3 => Some(ErrorConnection)
    case -4 => Some(ErrorTimedOut)
    case -5 => Some(ErrorWrongDevice)
    case -6 => Some(ErrorInvalid)
    case -7 => Some(ErrorOutOfMemory)
    case -8 => Some(ErrorFilename)
    case -9 => Some(ErrorData)
    case -10 => Some(ErrorState)
    case _ => None
  }

  lemma ErrorRoundTrip(e: ErrorType)
    ensures ErrorOfCode(ErrorCode(e)) == Some(e)
  {
  }

  lemma ErrorCodesDistinct(a: ErrorType, b: ErrorType)
    ensures ErrorCode(a) == ErrorCode(b) <==> a == b
  {
  }

  // ------------------------------------------ control inputs / state outputs

  /** The eight external trigger lines are numbered 1 through 8. */
  type TriggerLine = i: int | 1 <= i <= 8 witness 1

  datatype ControlInput =
    | UndefinedControlInput | StartFrame | EndFrame | StartLighting | EndLighting
    | StartSequenceItem | ExtTriggerOutput(line: TriggerLine)

  datatype StateOutput =
    | UndefinedStateOutput | NextFrameReady | FrameStarted | FrameEnded
    | LightingStarted | LightingEnded | SequenceItemStarted | SequenceItemEnded
    | ExtTriggerInput(line: TriggerLine) | LightingOn

  /** Control inputs occupy codes 0..13. */
  function ControlInputCode(c: ControlInput): (n: int)
    ensures 0 <= n <= 13
    ensures c.ExtTriggerOutput? <==> 6 <= n
  {
    match c
    case UndefinedControlInput => 0
    case StartFrame => 1
    case EndFrame => 2
    case StartLighting => 3
    case EndLighting => 4
    case StartSequenceItem => 5
    case ExtTriggerOutput(k) => 5 + k
  }

  function ControlInputOfCode(n: int): (r: Option<ControlInput>)
    ensures r.Some? ==> ControlInputCode(r.value) == n
    ensures r.None? ==> forall c: ControlInput :: ControlInputCode(c) != n
  {
    if n == 0 then Some(UndefinedControlInput)
    else if n == 1 then Some(StartFrame)
    else if n == 2 then Some(EndFrame)
    else if n == 3 then Some(StartLighting)
    else if n == 4 then Some(EndLighting)
    else if n == 5 then Some(StartSequenceItem)
    else if 6 <= n <= 13 then Some(ExtTriggerOutput(n - 5))
    else None
  }

  /** State outputs occupy codes 128..143 plus 150 for LIGHTING_ON. */
  function StateOutputCode(s: StateOutput): (n: int)
    ensures 128 <= n <= 143 || n == 150
    ensures n == 150 <==> s == LightingOn
  {
    match s
    case UndefinedStateOutput => 128
    case NextFrameReady => 129
    case FrameStarted => 130
    case FrameEnded => 131
    case LightingStarted => 132
    case LightingEnded => 133
    case SequenceItemStarted => 134
    case SequenceItemEnded => 135
    case ExtTriggerInput(k) => 135 + k
    case LightingOn => 150
  }

  function StateOutputOfCode(n: int): (r: Option<StateOutput>)
    ensures r.Some? ==> StateOutputCode(r.value) == n
    ensures r.None? ==> forall s: StateOutput :: StateOutputCode(s) != n
  {
    if n == 128 then Some(UndefinedStateOutput)
    else if n == 129 then Some(NextFrameReady)
    else if n == 130 then Some(FrameStarted)
    else if n == 131 then Some(FrameEnded)
    else if n == 132 then Some(LightingStarted)
    else if n == 133 then Some(LightingEnded)
    else if n == 134 then Some(SequenceItemStarted)
    else if n == 135 then Some(SequenceItemEnded)
    else if 136 <= n <= 143 then Some(ExtTriggerInput(n - 135))
    else if n == 150 then Some(LightingOn)
    else None
  }

  lemma SignalCodesRoundTrip(c: ControlInput, s: StateOutput)
    ensures ControlInputOfCode(ControlInputCode(c)) == Some(c)
    ensures StateOutputOfCode(StateOutputCode(s)) == Some(s)
  {
  }

  /** No control-input code is also a state-output code. */
  lemma SignalCodesDisjoint(c: ControlInput, s: StateOutput)
    ensures ControlInputCode(c) != StateOutputCode(s)
    ensures ControlInputOfCode(StateOutputCode(s)) == None
    ensures StateOutputOfCode(ControlInputCode(c)) == None
  {
  }

  // ---------------------------------------------------------- other enums

  datatype TriggerType = RisingEdge | FallingEdge | AnyEdge | ActiveHighLevel | ActiveLowLevel

  function TriggerTypeCode(t: TriggerType): (n: int)
    ensures 1 <= n <= 5
  {
    match t
    case RisingEdge => 1
    case FallingEdge => 2
    case AnyEdge => 3
    case ActiveHighLevel => 4
    case ActiveLowLevel => 5
  }

  function TriggerTypeOfCode(n: int): (r: Option<TriggerType>)
    ensures r.Some? ==> TriggerTypeCode(r.value) == n
    ensures r.None? ==> forall t: TriggerType :: TriggerTypeCode(t) != n
  {
    match n
    case 1 => Some(RisingEdge)
    case 2 => Some(FallingEdge)
    case 3 => Some(AnyEdge)
    case 4 => Some(ActiveHighLevel)
    case 5 => Some(ActiveLowLevel)
    case _ => None
  }

  /** Every trigger type decodes back from its code, and no two share one. */
  lemma TriggerTypeCodesDistinct(a: TriggerType, b: TriggerType)
    ensures TriggerTypeOfCode(TriggerTypeCode(a)) == Some(a)
    ensures TriggerTypeCode(a) == TriggerTypeCode(b) <==> a == b
  {
  }

  datatype DeviceType =
    | UndefinedDevice | PcDevice | Ajile2PortController | Ajile3PortController
    | Dmd3000 | Dmd4500 | Cmv4000Mono | Cmv2000Mono
    | AjileController | LightingController | DmdCameraController

  /** Device types use 0..7 and 10..12; 8 and 9 are unused. */
  function DeviceTypeCode(d: DeviceType): (n: int)
    ensures 0 <= n <= 12 && n != 8 && n != 9
  {
    match d
    case UndefinedDevice => 0
    case PcDevice => 1
    case Ajile2PortController => 2
    case Ajile3PortController => 3
    case Dmd3000 => 4
    case Dmd4500 => 5
    case Cmv4000Mono => 6
    case Cmv2000Mono => 7
    case AjileController => 10
    case LightingController => 11
    case DmdCameraController => 12
  }

  lemma DeviceTypeCodesDistinct(a: DeviceType, b: DeviceType)
    ensures DeviceTypeCode(a) == DeviceTypeCode(b) <==> a == b
  {
  }

  datatype Interface = UndefinedInterface | Gige | Usb2 | Usb3 | Pcie | Embedded | Ajp

  function InterfaceCode(i: Interface): (n: int)
    ensures 0 <= n <= 6
    ensures i == Usb2 <==> n == 2
    ensures i == Usb3 <==> n == 3
    ensures i == Pcie <==> n == 4
  {
    match i
    case UndefinedInterface => 0
    case Gige => 1
    case Usb2 => 2
    case Usb3 => 3
    case Pcie => 4
    case Embedded => 5
    case Ajp => 6
  }

  function InterfaceOfCode(n: int): (r: Option<Interface>)
    ensures r.Some? ==> InterfaceCode(r.value) == n
    ensures r.None? ==> forall i: Interface :: InterfaceCode(i) != n
  {
    match n
    case 0 => Some(UndefinedInterface)
    case 1 => Some(Gige)
    case 2 => Some(Usb2)
    case 3 => Some(Usb3)
    case 4 => Some(Pcie)
    case 5 => Some(Embedded)
    case 6 => Some(Ajp)
    case _ => None
  }

  /** Every interface decodes back from its code, and no two share one. */
  lemma InterfaceCodesDistinct(a: Interface, b: Interface)
    ensures InterfaceOfCode(InterfaceCode(a)) == Some(a)
    ensures InterfaceCode(a) == InterfaceCode(b) <==> a == b
  {
  }

  // ------------------------------------------------- default geometry, timing

  const DefaultImageWidth: nat := 1140
  const DefaultImageHeight: nat := 912
  const DefaultSequenceId: int := 1
  const MaxStreamingMemoryUsage: nat := 0x8000_0000
  const MaxStreamingFifoSize: nat := 0x0200_0000

  const GrayscaleFrameTimes: seq<int> := [15000, 30000, 60000, 120000, 240000, 480000, 960000, 1920000]
  const GrayscaleLedTimes: seq<int> := [15000, 30000, 60000, 120000, 240000, 480000, 960000, 1920000]

  function Pow2(n: nat): (p: nat)
    ensures p >= 1
  {
    if n == 0 then 1 else 2 * Pow2(n - 1)
  }

  /** The display time of grayscale bit plane `bit`: 15000 doubled `bit` times. */
  function GrayscaleBitTime(bit: nat): (t: int)
    requires bit < 8
    ensures t == GrayscaleFrameTimes[bit]
    ensures t == GrayscaleLedTimes[bit]
  {
    SmallPowers();
    15000 * Pow2(bit)
  }

  lemma SmallPowers()
    ensures forall b :: 0 <= b < 8 ==> Pow2(b) == [1, 2, 4, 8, 16, 32, 64, 128][b]
  {
    assert Pow2(0) == 1 && Pow2(1) == 2 && Pow2(2) == 4 && Pow2(3) == 8;
    assert Pow2(4) == 16 && Pow2(5) == 32 && Pow2(6) == 64 && Pow2(7) == 128;
  }

  /** The table has eight entries starting at 15000, each double the previous,
      and the LED table equals the frame table entry by entry. */
  lemma GrayscaleTablesDouble()
    ensures |GrayscaleFrameTimes| == 8 && GrayscaleFrameTimes[0] == 15000
    ensures forall i :: 1 <= i < |GrayscaleFrameTimes| ==> GrayscaleFrameTimes[i] == 2 * GrayscaleFrameTimes[i - 1]
    ensures GrayscaleLedTimes == GrayscaleFrameTimes
  {
  }

  /** Bytes a width x height frame occupies at `bitsPerPixel`, and the bits left over. */
  function PackedSize(width: nat, height: nat, bitsPerPixel: nat): (r: (nat, nat))
    ensures 8 * r.0 + r.1 == width * height * bitsPerPixel
    ensures r.1 < 8
  {
    (width * height * bitsPerPixel / 8, width * height * bitsPerPixel % 8)
  }

  /** The default 1140 x 912 frame packs into exactly 129960 bytes at one bit per pixel. */
  lemma DefaultFramePacksExactly()
    ensures PackedSize(DefaultImageWidth, DefaultImageHeight, 1) == (129960, 0)
  {
  }
}
