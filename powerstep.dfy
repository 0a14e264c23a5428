/** The powerSTEP01 driver: big-endian register packing, the bitfield
    overlays of the STEPMODE, ALARM_EN, GATECFG1 and CONFIG registers (GCC
    allocates bitfields from the least significant bit), and the driver
    operations that read a register, rewrite one field and write it back.

    The SPI bus is modelled by `Chip`: a register file indexed by parameter
    address, holding each register's bytes most significant first, and the
    log of every frame sent. */
module Powerstep {
  import opened Bytes
  import opened PsTypes
  import opened PsOpcodes

  /** ps_set16: the low 16 bits of `v`, high byte first. */
  function Set16(v: bv32): (r: seq<bv8>)
    ensures |r| == 2
    ensures Get16(r[0], r[1]) == (v & 0xFFFF) as bv16
  {
    [((v >> 8) & 0xFF) as bv8, (v & 0xFF) as bv8]
  }

  /** ps_get16: the 16-bit value of a high and a low byte. */
  function Get16(b1: bv8, b2: bv8): (r: bv16)
    ensures (r >> 8) as bv8 == b1 && (r & 0xFF) as bv8 == b2
  {
    ((b1 as bv16) << 8) | (b2 as bv16)
  }

  lemma Set16Get16(b1: bv8, b2: bv8)
    ensures Set16(Get16(b1, b2) as bv32) == [b1, b2]
  {
  }

  /** ps_set24: the low 24 bits of `v`, most significant byte first. */
  function Set24(v: bv32): (r: seq<bv8>)
    ensures |r| == 3
    ensures ((r[0] as bv32) << 16) | ((r[1] as bv32) << 8) | (r[2] as bv32) == v & 0xFF_FFFF
  {
    [((v >> 16) & 0xFF) as bv8, ((v >> 8) & 0xFF) as bv8, (v & 0xFF) as bv8]
  }

  /** The frame ps_move sends: CMD_MOVE(dir) and the step count cut to 22 bits. */
  function MoveFrame(dir: Dir, steps: bv32): (r: seq<bv8>)
    ensures |r| == 4
    ensures r[0] & 0xFE == 0x40 && DirFromBit(if r[0] & 1 == 1 then 1 else 0) == dir
    ensures r[1] <= 0x3F
    ensures ((r[1] as bv32) << 16) | ((r[2] as bv32) << 8) | (r[3] as bv32) == steps & MoveMask
  {
    var op := CmdMove(DirCode(dir) as bv32);
    [op as bv8] + Set24(steps & MoveMask)
  }

  // Bitfields of one register byte.

  function FieldMask(w: bv8): (m: bv8)
    requires 1 <= w <= 8
  {
    ((1 as bv8) << w) - 1
  }

  /** Reading a `w`-bit bitfield at bit `s` of the overlay. */
  function Field(b: bv8, s: bv8, w: bv8): bv8
    requires 1 <= w <= 8 && s <= 8 - w
  {
    (b >> s) & FieldMask(w)
  }

  /** Assigning `v` to a `w`-bit bitfield at bit `s`: the value is truncated to
      the field's width and every other bit of the byte is kept. */
  function WithField(b: bv8, s: bv8, w: bv8, v: bv8): (r: bv8)
    requires 1 <= w <= 8 && s <= 8 - w
    ensures Field(r, s, w) == v & FieldMask(w)
    ensures r & !(FieldMask(w) << s) == b & !(FieldMask(w) << s)
  {
    FieldUpdate(b, s, w, v);
    (b & !(FieldMask(w) << s)) | ((v & FieldMask(w)) << s)
  }

  lemma FieldUpdate(b: bv8, s: bv8, w: bv8, v: bv8)
    requires 1 <= w <= 8 && s <= 8 - w
    ensures var r := (b & !(FieldMask(w) << s)) | ((v & FieldMask(w)) << s);
      Field(r, s, w) == v & FieldMask(w) && r & !(FieldMask(w) << s) == b & !(FieldMask(w) << s)
  {
    FieldUpdateReads(b, s, w, v);
  }

  lemma FieldUpdateReads(b: bv8, s: bv8, w: bv8, v: bv8)
    requires 1 <= w <= 8 && s <= 8 - w
    ensures var r := (b & !(FieldMask(w) << s)) | ((v & FieldMask(w)) << s);
      Field(r, s, w) == v & FieldMask(w)
  {
  }

  /** The STEPMODE overlay: step_sel bits 0-2, cm_vm bit 3, sync_sel bits 4-6, sync_en bit 7. */
  datatype StepModeInfo = StepModeInfo(mode: MotorMode, stepSize: StepSize, syncMode: SyncMode, syncStepSize: StepSize)

  /** What ps_getstepmode returns for the byte read from STEPMODE. */
  function DecodeStepMode(b: bv8): (r: StepModeInfo)
    ensures MotorModeCode(r.mode) as bv8 == Field(b, 3, 1)
    ensures StepSizeCode(r.stepSize) as bv8 == Field(b, 0, 3)
    ensures SyncModeCode(r.syncMode) as bv8 == Field(b, 7, 1)
    ensures StepSizeCode(r.syncStepSize) as bv8 == Field(b, 4, 3)
  {
    StepModeInfo(
      if Field(b, 3, 1) == 0 then ModeVoltage else ModeCurrent,
      StepSizeFromCode(Field(b, 0, 3) as int),
      if Field(b, 7, 1) == 0 then SyncBusy else SyncStep,
      StepSizeFromCode(Field(b, 4, 3) as int))
  }

  /** The STEPMODE byte ps_setmode writes back. */
  function StepModeWithMode(b: bv8, mode: MotorMode, stepSize: StepSize): bv8
  {
    WithField(WithField(b, 3, 1, MotorModeCode(mode) as bv8), 0, 3, StepSizeCode(stepSize) as bv8)
  }

  /** The STEPMODE byte ps_setsync writes back. */
  function StepModeWithSync(b: bv8, sync: SyncMode, stepSize: StepSize): bv8
  {
    WithField(WithField(b, 7, 1, SyncModeCode(sync) as bv8), 4, 3, StepSizeCode(stepSize) as bv8)
  }

  /** ps_setmode changes the mode and step size and keeps both sync settings. */
  lemma SetModeThenGet(b: bv8, mode: MotorMode, stepSize: StepSize)
    ensures DecodeStepMode(StepModeWithMode(b, mode, stepSize))
         == DecodeStepMode(b).(mode := mode, stepSize := stepSize)
  {
  }

  /** ps_setsync changes the sync settings and keeps the mode and step size. */
  lemma SetSyncThenGet(b: bv8, sync: SyncMode, stepSize: StepSize)
    ensures DecodeStepMode(StepModeWithSync(b, sync, stepSize))
         == DecodeStepMode(b).(syncMode := sync, syncStepSize := stepSize)
  {
  }

  function Bit(f: bool): bv8
  {
    if f then 1 else 0
  }

  /** The ALARM_EN byte: overcurrent b0, thermal shutdown b1, thermal warning b2,
      undervoltage b3, ADC undervoltage b4, stall b5, user switch b6, command error b7. */
  function EncodeAlarms(a: Alarms): (r: bv8)
    ensures DecodeAlarms(r) == a
  {
    var b := WithField(0, 0, 1, Bit(a.overcurrent));
    var b := WithField(b, 1, 1, Bit(a.thermalShutdown));
    var b := WithField(b, 2, 1, Bit(a.thermalWarning));
    var b := WithField(b, 3, 1, Bit(a.undervoltage));
    var b := WithField(b, 4, 1, Bit(a.adcUndervoltage));
    var b := WithField(b, 5, 1, Bit(a.stallDetect));
    var b := WithField(b, 6, 1, Bit(a.userSwitch));
    WithField(b, 7, 1, Bit(a.commandError))
  }

  /** What ps_getalarms reports for the ALARM_EN byte read. */
  function DecodeAlarms(b: bv8): (a: Alarms)
    ensures a.overcurrent == (b & 0x01 != 0) && a.thermalShutdown == (b & 0x02 != 0)
    ensures a.thermalWarning == (b & 0x04 != 0) && a.undervoltage == (b & 0x08 != 0)
    ensures a.adcUndervoltage == (b & 0x10 != 0) && a.stallDetect == (b & 0x20 != 0)
    ensures a.userSwitch == (b & 0x40 != 0) && a.commandError == (b & 0x80 != 0)
  {
    Alarms(
      commandError := Field(b, 7, 1) == 1,
      overcurrent := Field(b, 0, 1) == 1,
      undervoltage := Field(b, 3, 1) == 1,
      thermalShutdown := Field(b, 1, 1) == 1,
      userSwitch := Field(b, 6, 1) == 1,
      thermalWarning := Field(b, 2, 1) == 1,
      stallDetect := Field(b, 5, 1) == 1,
      adcUndervoltage := Field(b, 4, 1) == 1)
  }

  /** All eight bits of ALARM_EN are alarm flags, so decoding loses nothing. */
  lemma EncodeDecodeAlarms(b: bv8)
    ensures EncodeAlarms(DecodeAlarms(b)) == b
  {
  }

  /** A register address (the 5-bit PARAM field) as a key of the register file. */
  datatype Addr = Addr(bits: bv8)

  /** n zero bytes. */
  function Zero8(n: nat): (r: seq<bv8>)
    ensures |r| == n && forall k :: 0 <= k < n ==> r[k] == 0
  {
    if n == 0 then [] else [0] + Zero8(n - 1)
  }

  /** The register file's answer to a read of `n` data bytes at address `p`. */
  function ReadOf(regs: map<Addr, seq<bv8>>, p: Addr, n: nat): (r: seq<bv8>)
    ensures |r| == n
    ensures p in regs && |regs[p]| == n ==> r == regs[p]
  {
    if p in regs && |regs[p]| == n then regs[p] else Zero8(n)
  }

  class Chip {
    /** Register contents by parameter address, most significant byte first. */
    var regs: map<Addr, seq<bv8>>
    /** Every frame sent over SPI, in order. */
    var sent: seq<seq<bv8>>

    constructor (regs0: map<Addr, seq<bv8>>)
      ensures regs == regs0 && sent == []
    {
      regs := regs0;
      sent := [];
    }

    function Reg(p: bv32, n: nat): (r: seq<bv8>)
      reads this
      requires p < 0x20
      ensures |r| == n
    {
      ReadOf(regs, Addr(p as bv8), n)
    }

    /** _ps_xfer: a full-duplex exchange of `len` bytes. GETPARAM answers with
        the register's bytes after the command byte, SETPARAM (any opcode with
        the top three bits clear, except NOP) stores the bytes after it, and
        every other byte received is 0. */
    method Xfer(buf: array<bv8>, len: nat)
      requires 1 <= len <= buf.Length
      modifies this, buf
      ensures sent == old(sent) + [old(buf[..len])]
      ensures old(buf[0]) & 0xE0 == 0x20 ==>
        regs == old(regs) && buf[..len] == [0] + ReadOf(old(regs), Addr(old(buf[0]) & 0x1F), len - 1)
      ensures old(buf[0]) & 0xE0 == 0 && old(buf[0]) != 0 ==>
        regs == old(regs)[Addr(old(buf[0])) := old(buf[1..len])] && buf[..len] == Zero8(len)
      ensures old(buf[0]) & 0xE0 != 0x20 && (old(buf[0]) & 0xE0 != 0 || old(buf[0]) == 0) ==>
        regs == old(regs) && buf[..len] == Zero8(len)
      ensures buf[len..] == old(buf[len..])
    {
      var frame := buf[..len];
      sent := sent + [frame];
      var op := buf[0];
      var answer: seq<bv8>;
      if op & 0xE0 == 0x20 {
        answer := [0] + ReadOf(regs, Addr(op & 0x1F), len - 1);
      } else {
        if op & 0xE0 == 0 && op != 0 {
          regs := regs[Addr(op) := frame[1..]];
        }
        answer := Zero8(len);
      }
      CopyIn(buf, 0, answer);
      assert buf[..len] == buf[..][..len];
      assert buf[len..] == buf[..][len..];
    }

    /** The GETPARAM opcode byte names register `p` in its low five bits. */
    lemma GetParamByte(p: bv32)
      requires p < 0x20
      ensures (CmdGetParam(p) as bv8) & 0xE0 == 0x20 && (CmdGetParam(p) as bv8) & 0x1F == p as bv8
    {
    }

    /** Read `n` data bytes of register `p` into a fresh buffer, as every getter does. */
    method ReadParam(p: bv32, n: nat) returns (buf: array<bv8>)
      requires p < 0x20
      modifies this
      ensures fresh(buf) && buf.Length == n + 1
      ensures buf[..] == [0] + old(Reg(p, n))
      ensures regs == old(regs)
      ensures sent == old(sent) + [[CmdGetParam(p) as bv8] + Zero8(n)]
    {
      buf := new bv8[n + 1](_ => 0);
      GetParamByte(p);
      buf[0] := CmdGetParam(p) as bv8;
      assert buf[..n + 1] == buf[..] == [CmdGetParam(p) as bv8] + Zero8(n);
      Xfer(buf, n + 1);
      assert buf[..] == buf[..n + 1];
    }

    /** Send SETPARAM(p) with the data bytes of `buf`, as every setter does last. */
    method WriteParam(p: bv32, buf: array<bv8>)
      requires 0 < p < 0x20 && buf.Length >= 1
      modifies this, buf
      ensures regs == old(regs)[Addr(p as bv8) := old(buf[1..])]
      ensures sent == old(sent) + [[CmdSetParam(p) as bv8] + old(buf[1..])]
    {
      var data := buf[1..];
      var op := CmdSetParam(p) as bv8;
      assert op == p as bv8 && op & 0xE0 == 0 && op != 0;
      buf[0] := op;
      assert buf[..buf.Length] == [op] + data;
      assert buf[1..buf.Length] == data;
      Xfer(buf, buf.Length);
    }

    /** ps_getstepmode. */
    method GetStepMode() returns (info: StepModeInfo)
      modifies this
      ensures info == DecodeStepMode(old(Reg(ParamStepMode, 1))[0])
      ensures regs == old(regs)
      ensures sent == old(sent) + [[CmdGetParam(ParamStepMode) as bv8, 0]]
    {
      var buf := ReadParam(ParamStepMode, 1);
      assert [CmdGetParam(ParamStepMode) as bv8] + Zero8(1) == [CmdGetParam(ParamStepMode) as bv8, 0];
      info := DecodeStepMode(buf[1]);
    }

    /** ps_setmode: only cm_vm and step_sel of STEPMODE change. */
    method SetMode(mode: MotorMode, stepSize: StepSize)
      modifies this
      ensures regs == old(regs)[Addr(ParamStepMode as bv8) := [StepModeWithMode(old(Reg(ParamStepMode, 1))[0], mode, stepSize)]]
      ensures sent == old(sent) + [[CmdGetParam(ParamStepMode) as bv8, 0], [CmdSetParam(ParamStepMode) as bv8] + [StepModeWithMode(old(Reg(ParamStepMode, 1))[0], mode, stepSize)]]
    {
      var buf := ReadParam(ParamStepMode, 1);
      assert [CmdGetParam(ParamStepMode) as bv8] + Zero8(1) == [CmdGetParam(ParamStepMode) as bv8, 0];
      buf[1] := WithField(buf[1], 3, 1, MotorModeCode(mode) as bv8);
      buf[1] := WithField(buf[1], 0, 3, StepSizeCode(stepSize) as bv8);
      assert buf[1..] == [buf[1]];
      WriteParam(ParamStepMode, buf);
    }

    /** ps_setsync: only sync_en and sync_sel of STEPMODE change. */
    method SetSync(sync: SyncMode, stepSize: StepSize)
      modifies this
      ensures regs == old(regs)[Addr(ParamStepMode as bv8) := [StepModeWithSync(old(Reg(ParamStepMode, 1))[0], sync, stepSize)]]
      ensures sent == old(sent) + [[CmdGetParam(ParamStepMode) as bv8, 0], [CmdSetParam(ParamStepMode) as bv8] + [StepModeWithSync(old(Reg(ParamStepMode, 1))[0], sync, stepSize)]]
    {
      var buf := ReadParam(ParamStepMode, 1);
      assert [CmdGetParam(ParamStepMode) as bv8] + Zero8(1) == [CmdGetParam(ParamStepMode) as bv8, 0];
      buf[1] := WithField(buf[1], 7, 1, SyncModeCode(sync) as bv8);
      buf[1] := WithField(buf[1], 4, 3, StepSizeCode(stepSize) as bv8);
      assert buf[1..] == [buf[1]];
      WriteParam(ParamStepMode, buf);
    }

    /** ps_setslewrate: the second GATECFG1 byte is the slew field; the first is written back as read. */
    method SetSlewRate(slew: SlewRate)
      modifies this
      ensures var old1 := old(Reg(ParamGateCfg1, 2));
        regs == old(regs)[Addr(ParamGateCfg1 as bv8) := [old1[0], SlewRateCode(slew) as bv8]]
      ensures sent == old(sent) + [[CmdGetParam(ParamGateCfg1) as bv8, 0, 0], [CmdSetParam(ParamGateCfg1) as bv8] + [old(Reg(ParamGateCfg1, 2))[0], SlewRateCode(slew) as bv8]]
    {
      var buf := ReadParam(ParamGateCfg1, 2);
      assert [CmdGetParam(ParamGateCfg1) as bv8] + Zero8(2) == [CmdGetParam(ParamGateCfg1) as bv8, 0, 0];
      buf[2] := SlewRateCode(slew) as bv8;
      assert buf[1..] == [buf[1], buf[2]];
      WriteParam(ParamGateCfg1, buf);
    }

    /** ps_setclocksel: only clk_sel (bits 0-3 of the low CONFIG byte) changes. */
    method SetClockSel(clock: ClockSel)
      modifies this
      ensures var c := old(Reg(ParamConfig, 2));
        regs == old(regs)[Addr(ParamConfig as bv8) := [c[0], WithField(c[1], 0, 4, ClockSelCode(clock) as bv8)]]
      ensures sent == old(sent) + [[CmdGetParam(ParamConfig) as bv8, 0, 0], [CmdSetParam(ParamConfig) as bv8] + [old(Reg(ParamConfig, 2))[0], WithField(old(Reg(ParamConfig, 2))[1], 0, 4, ClockSelCode(clock) as bv8)]]
    {
      var buf := ReadParam(ParamConfig, 2);
      assert [CmdGetParam(ParamConfig) as bv8] + Zero8(2) == [CmdGetParam(ParamConfig) as bv8, 0, 0];
      buf[2] := WithField(buf[2], 0, 4, ClockSelCode(clock) as bv8);
      assert buf[1..] == [buf[1], buf[2]];
      WriteParam(ParamConfig, buf);
    }

    /** ps_setswmode: only sw_mode (bit 4 of the low CONFIG byte) changes. */
    method SetSwMode(mode: SwMode)
      modifies this
      ensures var c := old(Reg(ParamConfig, 2));
        regs == old(regs)[Addr(ParamConfig as bv8) := [c[0], WithField(c[1], 4, 1, SwModeCode(mode) as bv8)]]
      ensures sent == old(sent) + [[CmdGetParam(ParamConfig) as bv8, 0, 0], [CmdSetParam(ParamConfig) as bv8] + [old(Reg(ParamConfig, 2))[0], WithField(old(Reg(ParamConfig, 2))[1], 4, 1, SwModeCode(mode) as bv8)]]
    {
      var buf := ReadParam(ParamConfig, 2);
      assert [CmdGetParam(ParamConfig) as bv8] + Zero8(2) == [CmdGetParam(ParamConfig) as bv8, 0, 0];
      buf[2] := WithField(buf[2], 4, 1, SwModeCode(mode) as bv8);
      assert buf[1..] == [buf[1], buf[2]];
      WriteParam(ParamConfig, buf);
    }

    /** ps_vm_setpwmfreq: f_pwm_int (bits 5-7) and f_pwm_dec (bits 2-4) of the high CONFIG byte, each truncated to 3 bits. */
    method VmSetPwmFreq(div: bv8, mul: bv8)
      modifies this
      ensures var c := old(Reg(ParamConfig, 2));
        regs == old(regs)[Addr(ParamConfig as bv8) := [WithField(WithField(c[0], 5, 3, div), 2, 3, mul), c[1]]]
      ensures sent == old(sent) + [[CmdGetParam(ParamConfig) as bv8, 0, 0], [CmdSetParam(ParamConfig) as bv8] + [WithField(WithField(old(Reg(ParamConfig, 2))[0], 5, 3, div), 2, 3, mul), old(Reg(ParamConfig, 2))[1]]]
    {
      var buf := ReadParam(ParamConfig, 2);
      assert [CmdGetParam(ParamConfig) as bv8] + Zero8(2) == [CmdGetParam(ParamConfig) as bv8, 0, 0];
      buf[1] := WithField(buf[1], 5, 3, div);
      buf[1] := WithField(buf[1], 2, 3, mul);
      assert buf[1..] == [buf[1], buf[2]];
      WriteParam(ParamConfig, buf);
    }

    /** ps_vm_setvoltcomp: only en_vscomp (bit 5 of the low CONFIG byte) changes. */
    method VmSetVoltComp(on: bool)
      modifies this
      ensures var c := old(Reg(ParamConfig, 2));
        regs == old(regs)[Addr(ParamConfig as bv8) := [c[0], WithField(c[1], 5, 1, Bit(on))]]
      ensures sent == old(sent) + [[CmdGetParam(ParamConfig) as bv8, 0, 0], [CmdSetParam(ParamConfig) as bv8] + [old(Reg(ParamConfig, 2))[0], WithField(old(Reg(ParamConfig, 2))[1], 5, 1, Bit(on))]]
    {
      var buf := ReadParam(ParamConfig, 2);
      assert [CmdGetParam(ParamConfig) as bv8] + Zero8(2) == [CmdGetParam(ParamConfig) as bv8, 0, 0];
      buf[2] := WithField(buf[2], 5, 1, Bit(on));
      assert buf[1..] == [buf[1], buf[2]];
      WriteParam(ParamConfig, buf);
    }

    /** ps_setalarms: ALARM_EN is written whole, without reading it first. */
    method SetAlarms(a: Alarms)
      modifies this
      ensures regs == old(regs)[Addr(ParamAlarmEn as bv8) := [EncodeAlarms(a)]]
      ensures sent == old(sent) + [[CmdSetParam(ParamAlarmEn) as bv8, EncodeAlarms(a)]]
    {
      var buf := new bv8[2](_ => 0);
      buf[1] := EncodeAlarms(a);
      assert buf[1..] == [EncodeAlarms(a)];
      WriteParam(ParamAlarmEn, buf);
      assert [CmdSetParam(ParamAlarmEn) as bv8] + [EncodeAlarms(a)] == [CmdSetParam(ParamAlarmEn) as bv8, EncodeAlarms(a)];
    }

    /** ps_getalarms. */
    method GetAlarms() returns (a: Alarms)
      modifies this
      ensures a == DecodeAlarms(old(Reg(ParamAlarmEn, 1))[0])
      ensures regs == old(regs)
      ensures sent == old(sent) + [[CmdGetParam(ParamAlarmEn) as bv8, 0]]
    {
      var buf := ReadParam(ParamAlarmEn, 1);
      assert [CmdGetParam(ParamAlarmEn) as bv8] + Zero8(1) == [CmdGetParam(ParamAlarmEn) as bv8, 0];
      a := DecodeAlarms(buf[1]);
    }

    /** ps_move. */
    method Move(dir: Dir, steps: bv32)
      modifies this
      ensures regs == old(regs)
      ensures sent == old(sent) + [MoveFrame(dir, steps)]
    {
      var buf := new bv8[4](_ => 0);
      var frame := MoveFrame(dir, steps);
      CopyIn(buf, 0, frame);
      assert buf[..4] == buf[..] == frame;
      Xfer(buf, 4);
    }
  }

  /** ps_getalarms after ps_setalarms reports the flags that were set. */
  method SetThenGetAlarms(chip: Chip, a: Alarms) returns (r: Alarms)
    modifies chip
    ensures r == a
  {
    chip.SetAlarms(a);
    assert chip.Reg(ParamAlarmEn, 1) == [EncodeAlarms(a)];
    r := chip.GetAlarms();
  }
}
