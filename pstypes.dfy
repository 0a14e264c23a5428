/** The enumerations of the powerSTEP01 driver interface and of the firmware's
    configuration, each with the integer code the C enum gives it. */
module PsTypes {
  import opened Bytes

  datatype Dir = Rev | Fwd

  function DirCode(d: Dir): (c: byte)
    ensures c < 2
    ensures DirFromBit(c) == d
  {
    match d
    case Rev => 0
    case Fwd => 1
  }

  /** The direction a single register or opcode bit encodes. */
  function DirFromBit(b: int): (d: Dir)
    ensures b % 2 == 0 ==> d == Rev
    ensures b % 2 == 1 ==> d == Fwd
  {
    if b % 2 == 0 then Rev else Fwd
  }

  datatype Movement = Stopped | Accel | Decel | ConstSpeed

  datatype PosAct = PosReset | PosCopyMark

  function PosActCode(a: PosAct): (c: byte)
    ensures c < 2
    ensures a == PosReset <==> c == 0
  {
    match a
    case PosReset => 0
    case PosCopyMark => 1
  }

  datatype MotorMode = ModeVoltage | ModeCurrent

  function MotorModeCode(m: MotorMode): (c: byte)
    ensures c < 2
    ensures m == ModeVoltage <==> c == 0
  {
    match m
    case ModeVoltage => 0
    case ModeCurrent => 1
  }

  /** STEP_1 .. STEP_128: the microstep divider 2^code, code 0 .. 7. */
  datatype StepSize = Step1 | Step2 | Step4 | Step8 | Step16 | Step32 | Step64 | Step128

  function StepSizeCode(s: StepSize): (c: byte)
    ensures c < 8
    ensures StepSizeFromCode(c) == s
  {
    match s
    case Step1 => 0
    case Step2 => 1
    case Step4 => 2
    case Step8 => 3
    case Step16 => 4
    case Step32 => 5
    case Step64 => 6
    case Step128 => 7
  }

  function StepSizeFromCode(c: int): StepSize
    requires 0 <= c < 8
  {
    if c == 0 then Step1 else if c == 1 then Step2 else if c == 2 then Step4
    else if c == 3 then Step8 else if c == 4 then Step16 else if c == 5 then Step32
    else if c == 6 then Step64 else Step128
  }

  lemma StepSizeCodeOfFromCode(c: int)
    requires 0 <= c < 8
    ensures StepSizeCode(StepSizeFromCode(c)) == c
  {
  }

  datatype SyncMode = SyncBusy | SyncStep

  function SyncModeCode(m: SyncMode): (c: byte)
    ensures c < 2
    ensures m == SyncBusy <==> c == 0
  {
    match m
    case SyncBusy => 0
    case SyncStep => 1
  }

  /** Gate slew rates; each code is the TCC and IGATE settings of GATECFG1 byte 2 combined. */
  datatype SlewRate = Sr114 | Sr220 | Sr400 | Sr520 | Sr790 | Sr980

  function SlewRateCode(s: SlewRate): (c: byte)
    ensures c >= 0x58
  {
    match s
    case Sr114 => 0x40 + 0x18
    case Sr220 => 0x60 + 0x0C
    case Sr400 => 0x80 + 0x07
    case Sr520 => 0xA0 + 0x06
    case Sr790 => 0xC0 + 0x03
    case Sr980 => 0xD0 + 0x02
  }

  lemma SlewRateCodeInjective(a: SlewRate, b: SlewRate)
    ensures SlewRateCode(a) == SlewRateCode(b) ==> a == b
  {
  }

  /** Oscillator selection; the codes are the 4-bit CLK_SEL field of CONFIG. */
  datatype ClockSel =
    | ClkInt16 | ClkInt16Ext2 | ClkInt16Ext4 | ClkInt16Ext8 | ClkInt16Ext16
    | ClkExt8Xtal | ClkExt16Xtal | ClkExt24Xtal | ClkExt32Xtal
    | ClkExt8Osc | ClkExt16Osc | ClkExt24Osc | ClkExt32Osc

  function ClockSelCode(c: ClockSel): (r: byte)
    ensures r < 16
  {
    match c
    case ClkInt16 => 0x0
    case ClkInt16Ext2 => 0x8
    case ClkInt16Ext4 => 0x9
    case ClkInt16Ext8 => 0xA
    case ClkInt16Ext16 => 0xB
    case ClkExt8Xtal => 0x4
    case ClkExt16Xtal => 0x5
    case ClkExt24Xtal => 0x6
    case ClkExt32Xtal => 0x7
    case ClkExt8Osc => 0xC
    case ClkExt16Osc => 0xD
    case ClkExt24Osc => 0xE
    case ClkExt32Osc => 0xF
  }

  lemma ClockSelCodeInjective(a: ClockSel, b: ClockSel)
    ensures ClockSelCode(a) == ClockSelCode(b) ==> a == b
  {
  }

  datatype SwMode = SwHardStop | SwUser

  function SwModeCode(m: SwMode): (c: byte)
    ensures c < 2
    ensures m == SwHardStop <==> c == 0
  {
    match m
    case SwHardStop => 0
    case SwUser => 1
  }

  datatype WifiMode = WifiOff | WifiAccessPoint | WifiStation

  /** The eight alarm flags of ps_alarms. */
  datatype Alarms = Alarms(
    commandError: bool, overcurrent: bool, undervoltage: bool, thermalShutdown: bool,
    userSwitch: bool, thermalWarning: bool, stallDetect: bool, adcUndervoltage: bool)

  /** What ps_getstatus reports. */
  datatype Status = Status(
    direction: Dir, movement: Movement, hiz: bool, userSwitch: bool, stepClock: bool, alarms: Alarms)
}
