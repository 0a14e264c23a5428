/** The configuration helpers of the firmware header: the mappings between
    configuration strings and enumerations used when the JSON configuration is
    read and written, and the corrections applied when the motor is configured
    as reversed. `reverse` is the motor configuration's reverse flag. */
module Config {
  import opened Bytes
  import opened PsTypes

  /** motorcfg_dir: the direction the driver sees for a user direction. */
  function MotorDir(reverse: bool, d: Dir): (r: Dir)
    ensures !reverse ==> r == d
    ensures reverse ==> r != d
  {
    if !reverse then d
    else match d
      case Fwd => Rev
      case Rev => Fwd
  }

  lemma MotorDirInvolution(reverse: bool, d: Dir)
    ensures MotorDir(reverse, MotorDir(reverse, d)) == d
  {
  }

  /** motorcfg_pos: the sign-corrected position. The negation is the 32-bit
      two's-complement one, so INT32_MIN maps to itself. */
  function MotorPos(reverse: bool, p: int32): (r: int32)
    ensures !reverse ==> r == p
    ensures reverse && p != -0x8000_0000 ==> r == -p
    ensures reverse && p == -0x8000_0000 ==> r == p
  {
    if reverse then ToSigned32((0 - p as int) % 0x1_0000_0000) else p
  }

  lemma {:induction false} MotorPosInvolution(reverse: bool, p: int32)
    ensures MotorPos(reverse, MotorPos(reverse, p)) == p
  {
    if reverse && p != -0x8000_0000 {
      assert MotorPos(reverse, p) == -p;
      assert -p != -0x8000_0000;
      assert MotorPos(reverse, -p) == p;
    }
  }

  /** parse_wifimode: only "station" selects station mode. */
  function ParseWifiMode(m: string): (r: WifiMode)
    ensures r != WifiOff
    ensures r == WifiStation <==> m == "station"
  {
    if m == "station" then WifiStation else WifiAccessPoint
  }

  /** parse_channel, applied to the integer that String.toInt produced. */
  function ParseChannel(i: int, d: int): (r: int)
    ensures 1 <= i <= 13 ==> r == i
    ensures !(1 <= i <= 13) ==> r == d
  {
    if i > 0 && i <= 13 then i else d
  }

  function ParseMotorMode(m: string, d: MotorMode): (r: MotorMode)
    ensures m != "voltage" && m != "current" ==> r == d
  {
    if m == "voltage" then ModeVoltage
    else if m == "current" then ModeCurrent
    else d
  }

  /** The microstep dividers the configuration accepts. */
  predicate IsStepDivider(s: int)
  {
    s == 1 || s == 2 || s == 4 || s == 8 || s == 16 || s == 32 || s == 64 || s == 128
  }

  function ParseStepSize(s: int, d: StepSize): (r: StepSize)
    ensures IsStepDivider(s) ==> SerializeStepSize(r) == s
    ensures !IsStepDivider(s) ==> r == d
  {
    if s == 1 then Step1 else if s == 2 then Step2 else if s == 4 then Step4
    else if s == 8 then Step8 else if s == 16 then Step16 else if s == 32 then Step32
    else if s == 64 then Step64 else if s == 128 then Step128
    else d
  }

  function ParseDirection(s: string, d: Dir): (r: Dir)
    ensures s != "forward" && s != "reverse" ==> r == d
  {
    if s == "forward" then Fwd
    else if s == "reverse" then Rev
    else d
  }

  function SerializeWifiMode(m: WifiMode): string
  {
    match m
    case WifiOff => "off"
    case WifiAccessPoint => "accesspoint"
    case WifiStation => "station"
  }

  function SerializeMotorMode(m: MotorMode): string
  {
    match m
    case ModeVoltage => "voltage"
    case ModeCurrent => "current"
  }

  /** json_serialize(ps_stepsize): the divider 2^code. */
  function SerializeStepSize(s: StepSize): (r: int)
    ensures IsStepDivider(r)
  {
    match s
    case Step1 => 1
    case Step2 => 2
    case Step4 => 4
    case Step8 => 8
    case Step16 => 16
    case Step32 => 32
    case Step64 => 64
    case Step128 => 128
  }

  function SerializeDirection(d: Dir): string
  {
    match d
    case Fwd => "forward"
    case Rev => "reverse"
  }

  function SerializeMovement(m: Movement): string
  {
    match m
    case Stopped => "idle"
    case Accel => "accelerating"
    case Decel => "decelerating"
    case ConstSpeed => "spinning"
  }

  /** Serializing and parsing back a wifi mode recovers it, except that "off" reads back as access point. */
  lemma WifiModeRoundTrip(m: WifiMode)
    ensures m != WifiOff ==> ParseWifiMode(SerializeWifiMode(m)) == m
    ensures m == WifiOff ==> ParseWifiMode(SerializeWifiMode(m)) == WifiAccessPoint
  {
  }

  lemma MotorModeRoundTrip(m: MotorMode, d: MotorMode)
    ensures ParseMotorMode(SerializeMotorMode(m), d) == m
  {
  }

  /** The step size mapping is a bijection between the eight enumerators and the eight dividers. */
  lemma StepSizeRoundTrip(s: StepSize, n: int, d: StepSize)
    ensures ParseStepSize(SerializeStepSize(s), d) == s
    ensures IsStepDivider(n) ==> SerializeStepSize(ParseStepSize(n, d)) == n
  {
  }

  lemma DirectionRoundTrip(dir: Dir, d: Dir)
    ensures ParseDirection(SerializeDirection(dir), d) == dir
  {
  }

  /** Distinct movements serialize to distinct strings, so the JSON status identifies the movement. */
  lemma SerializeMovementInjective(a: Movement, b: Movement)
    ensures SerializeMovement(a) == SerializeMovement(b) ==> a == b
  {
  }
}
