/** The powerSTEP01 command bytes: every opcode is a fixed pattern with its
    arguments masked and shifted into place. The C macros work on `int`; the
    model uses 32-bit vectors so that any argument value can be passed. */
module PsOpcodes {

  const MaskParam: bv32 := 0x1F
  const MaskDir: bv32 := 0x01
  const MaskAct: bv32 := 0x01
  const ShiftParam: nat := 0
  const ShiftDir: nat := 0
  const ShiftAct: nat := 3

  /** __MS(v, m, s): mask, then shift. */
  function MaskShift(v: bv32, m: bv32, s: nat): bv32
    requires s <= 8
  {
    (v & m) << s
  }

  function CmdNop(): bv32 { 0x00 }

  /** SETPARAM carries the register address in its low five bits and zeros above. */
  function CmdSetParam(p: bv32): (r: bv32)
    ensures r < 0x20 && r & 0x1F == p & 0x1F
    ensures p < 0x20 ==> r == p
  {
    0x00 | MaskShift(p, MaskParam, ShiftParam)
  }

  /** GETPARAM is SETPARAM's address field under the prefix bits 001. */
  function CmdGetParam(p: bv32): (r: bv32)
    ensures r < 0x40 && r & 0xE0 == 0x20
    ensures r & 0x1F == p & 0x1F
  {
    0x20 | MaskShift(p, MaskParam, ShiftParam)
  }

  function CmdRun(dir: bv32): (r: bv32)
    ensures r & 0xFE == 0x50 && r & 1 == dir & 1
  {
    0x50 | MaskShift(dir, MaskDir, ShiftDir)
  }

  function CmdStepClk(dir: bv32): (r: bv32)
    ensures r & 0xFE == 0x58 && r & 1 == dir & 1
  {
    0x58 | MaskShift(dir, MaskDir, ShiftDir)
  }

  function CmdMove(dir: bv32): (r: bv32)
    ensures r & 0xFE == 0x40 && r & 1 == dir & 1
  {
    0x40 | MaskShift(dir, MaskDir, ShiftDir)
  }

  function CmdGoto(): bv32 { 0x60 }

  function CmdGotoDir(dir: bv32): (r: bv32)
    ensures r & 0xFE == 0x68 && r & 1 == dir & 1
  {
    0x68 | MaskShift(dir, MaskDir, ShiftDir)
  }

  function CmdGoUntil(act: bv32, dir: bv32): (r: bv32)
    ensures r & 0xF6 == 0x82
    ensures (r >> 3) & 1 == act & 1 && r & 1 == dir & 1
  {
    0x82 | MaskShift(act, MaskAct, ShiftAct) | MaskShift(dir, MaskDir, ShiftDir)
  }

  function CmdReleaseSw(act: bv32, dir: bv32): (r: bv32)
    ensures r & 0xF6 == 0x92
    ensures (r >> 3) & 1 == act & 1 && r & 1 == dir & 1
  {
    0x92 | MaskShift(act, MaskAct, ShiftAct) | MaskShift(dir, MaskDir, ShiftDir)
  }

  function CmdGoHome(): bv32 { 0x70 }
  function CmdGoMark(): bv32 { 0x78 }
  function CmdResetPos(): bv32 { 0xD8 }
  function CmdResetDevice(): bv32 { 0xC0 }
  function CmdSoftStop(): bv32 { 0xB0 }
  function CmdHardStop(): bv32 { 0xB8 }
  function CmdSoftHiz(): bv32 { 0xA0 }
  function CmdHardHiz(): bv32 { 0xA8 }
  function CmdGetStatus(): bv32 { 0xD0 }

  /** CMDSIZE(b): a command with b argument bytes occupies b + 1 bytes on the wire. */
  function CmdSize(b: nat): (r: nat)
    ensures r > b && r - 1 == b
  {
    b + 1
  }

  const ParamAbsPos: bv32 := 0x01
  const ParamElPos: bv32 := 0x02
  const ParamMark: bv32 := 0x03
  const ParamSpeed: bv32 := 0x04
  const ParamAcc: bv32 := 0x05
  const ParamDec: bv32 := 0x06
  const ParamMaxSpeed: bv32 := 0x07
  const ParamMinSpeed: bv32 := 0x08
  const ParamAdcOut: bv32 := 0x12
  const ParamOcdTh: bv32 := 0x13
  const ParamFsSpd: bv32 := 0x15
  const ParamStepMode: bv32 := 0x16
  const ParamAlarmEn: bv32 := 0x17
  const ParamGateCfg1: bv32 := 0x18
  const ParamGateCfg2: bv32 := 0x19
  const ParamStatus: bv32 := 0x1B
  const ParamConfig: bv32 := 0x1A
  const ParamKvalHold: bv32 := 0x09
  const ParamKvalRun: bv32 := 0x0A
  const ParamKvalAcc: bv32 := 0x0B
  const ParamKvalDec: bv32 := 0x0C
  const ParamIntSpeed: bv32 := 0x0D
  const ParamStSlp: bv32 := 0x0E
  const ParamFnSlpAcc: bv32 := 0x0F
  const ParamFnSlpDec: bv32 := 0x10
  const ParamKTherm: bv32 := 0x11
  const ParamStallTh: bv32 := 0x14
  const ParamTvalHold: bv32 := 0x09
  const ParamTvalRun: bv32 := 0x0A
  const ParamTvalAcc: bv32 := 0x0B
  const ParamTvalDec: bv32 := 0x0C
  const ParamTFast: bv32 := 0x0E
  const ParamTOnMin: bv32 := 0x0F
  const ParamTOffMin: bv32 := 0x10

  /** Every register address the driver defines. */
  const AllParams: seq<bv32> := [
    ParamAbsPos, ParamElPos, ParamMark, ParamSpeed, ParamAcc, ParamDec, ParamMaxSpeed,
    ParamMinSpeed, ParamAdcOut, ParamOcdTh, ParamFsSpd, ParamStepMode, ParamAlarmEn,
    ParamGateCfg1, ParamGateCfg2, ParamStatus, ParamConfig,
    ParamKvalHold, ParamKvalRun, ParamKvalAcc, ParamKvalDec, ParamIntSpeed, ParamStSlp,
    ParamFnSlpAcc, ParamFnSlpDec, ParamKTherm, ParamStallTh,
    ParamTvalHold, ParamTvalRun, ParamTvalAcc, ParamTvalDec, ParamTFast, ParamTOnMin, ParamTOffMin]

  const MoveMask: bv32 := 0x003F_FFFF

  /** Every register address fits the 5-bit parameter field of SETPARAM and GETPARAM. */
  lemma AllParamsInField()
    ensures forall p <- AllParams :: p < 0x20
  {
  }

  /** SETPARAM and GETPARAM carry a 5-bit address unchanged, masking the opcode recovers it, and the two opcodes differ. */
  lemma ParamFieldRoundTrip(p: bv32)
    requires p < 0x20
    ensures CmdSetParam(p) == p
    ensures CmdGetParam(p) & 0x1F == p
    ensures CmdGetParam(p) != CmdSetParam(p)
  {
  }

  /** The argument masks keep every opcode within one byte, whatever the arguments. */
  lemma OpcodesFitByte(p: bv32, act: bv32, dir: bv32)
    ensures CmdSetParam(p) < 0x100 && CmdGetParam(p) < 0x100
    ensures CmdRun(dir) < 0x100 && CmdStepClk(dir) < 0x100 && CmdMove(dir) < 0x100
    ensures CmdGotoDir(dir) < 0x100
    ensures CmdGoUntil(act, dir) < 0x100 && CmdReleaseSw(act, dir) < 0x100
  {
  }

  /** Different opcode families never produce the same byte, so the driver can tell them apart. */
  lemma DirectionalOpcodesDistinct(d1: bv32, d2: bv32)
    ensures CmdRun(d1) != CmdStepClk(d2) && CmdRun(d1) != CmdMove(d2) && CmdRun(d1) != CmdGotoDir(d2)
    ensures CmdStepClk(d1) != CmdMove(d2) && CmdStepClk(d1) != CmdGotoDir(d2)
    ensures CmdMove(d1) != CmdGotoDir(d2)
  {
  }

  /** MOVE_MASK keeps exactly the low 22 bits: the value modulo 2^22. */
  lemma MoveMaskLow22(x: bv32)
    ensures x & MoveMask < 0x40_0000
    ensures x & MoveMask == x % 0x40_0000
  {
  }
}
