/** The motion command queue: a 2048-byte arena holding packed command
    records (a 5-byte header of opcode and 32-bit id, then the command's
    fields), the enqueue operations that append a record when it fits, and
    the interpreter that dispatches records to the motor driver from the front
    and compacts the arena.

    Bit 0x20 of an opcode means "wait until the driver is not busy", bit 0x40
    "wait until the motor is stopped". The driver's busy and running flags are
    modelled as functions of the driver calls issued so far. */
module CommandQueue {
  import opened Bytes
  import opened PsTypes
  import opened Config

  const QSize: nat := 2048
  const PreBusy: byte := 0x20
  const PreStop: byte := 0x40
  const HeadSize: nat := 5

  const OpNop: byte := 0x00
  const OpStop: byte := 0x01
  const OpRun: byte := 0x02
  const OpStepClk: byte := 0x43
  const OpMove: byte := 0x44
  const OpGoto: byte := 0x25
  const OpGoUntil: byte := 0x06
  const OpReleaseSw: byte := 0x27
  const OpGoHome: byte := 0x28
  const OpGoMark: byte := 0x29
  const OpResetPos: byte := 0x4A
  const OpSetPos: byte := 0x0B
  const OpSetMark: byte := 0x0C
  const OpSetConfig: byte := 0x4D
  const OpWaitBusy: byte := 0x2E
  const OpWaitRunning: byte := 0x4F
  const OpWaitMillis: byte := 0x10

  /** The value a C enum field holds in the goto record when no direction is given. */
  const NoDirection: byte := 0xFF

  /** A single-precision speed, carried through the queue as its 4 bytes. */
  type FloatBits = s: seq<byte> | |s| == 4 witness [0, 0, 0, 0]

  datatype Command =
    | Nop
    | Stop(hiz: bool, soft: bool)
    | Run(dir: Dir, stepss: FloatBits)
    | StepClock(dir: Dir)
    | Move(dir: Dir, microsteps: uint32)
    | Goto(pos: int32, gotoDir: Option<Dir>)
    | GoUntil(action: PosAct, dir: Dir, stepss: FloatBits)
    | ReleaseSw(action: PosAct, dir: Dir)
    | GoHome
    | GoMark
    | ResetPos
    | SetPos(pos: int32)
    | SetMark(pos: int32)
    | SetConfig(config: seq<byte>)
    | WaitBusy
    | WaitRunning
    | WaitMillis(millis: uint32)

  /** A configuration string is passed as a C string, so it holds no NUL. */
  predicate ValidCommand(c: Command)
  {
    c.SetConfig? ==> 0 !in c.config
  }

  function Opcode(c: Command): byte
  {
    match c
    case Nop => OpNop
    case Stop(_, _) => OpStop
    case Run(_, _) => OpRun
    case StepClock(_) => OpStepClk
    case Move(_, _) => OpMove
    case Goto(_, _) => OpGoto
    case GoUntil(_, _, _) => OpGoUntil
    case ReleaseSw(_, _) => OpReleaseSw
    case GoHome => OpGoHome
    case GoMark => OpGoMark
    case ResetPos => OpResetPos
    case SetPos(_) => OpSetPos
    case SetMark(_) => OpSetMark
    case SetConfig(_) => OpSetConfig
    case WaitBusy => OpWaitBusy
    case WaitRunning => OpWaitRunning
    case WaitMillis(_) => OpWaitMillis
  }

  function BoolByte(b: bool): byte
  {
    if b then 1 else 0
  }

  /** A C enum field: four bytes, little-endian; every enumerator stored fits the low byte. */
  function EnumField(code: byte): (r: seq<byte>)
    ensures |r| == 4
  {
    [code, 0, 0, 0]
  }

  /** The fields after the header, in struct order. */
  function Payload(c: Command): seq<byte>
  {
    match c
    case Stop(hiz, soft) => [BoolByte(hiz), BoolByte(soft)]
    case Run(dir, stepss) => EnumField(DirCode(dir)) + stepss
    case StepClock(dir) => EnumField(DirCode(dir))
    case Move(dir, steps) => EnumField(DirCode(dir)) + PackLE32(steps)
    case Goto(pos, dir) =>
      EnumField(if dir.Some? then DirCode(dir.value) else NoDirection) + PackInt32(pos)
    case GoUntil(act, dir, stepss) => EnumField(PosActCode(act)) + EnumField(DirCode(dir)) + stepss
    case ReleaseSw(act, dir) => EnumField(PosActCode(act)) + EnumField(DirCode(dir))
    case SetPos(pos) => PackInt32(pos)
    case SetMark(pos) => PackInt32(pos)
    case SetConfig(config) => config + [0]
    case WaitMillis(ms) => [BoolByte(false)] + PackLE32(ms)
    case _ => []
  }

  /** The size of a command's packed record (sizeof of its struct; for a
      configuration, the header, the string and its NUL). */
  function Size(c: Command): (n: nat)
    ensures n >= HeadSize
    ensures c.Stop? ==> n == 7
    ensures c.Run? || c.Move? || c.Goto? || c.ReleaseSw? ==> n == 13
    ensures c.StepClock? || c.SetPos? || c.SetMark? ==> n == 9
    ensures c.GoUntil? ==> n == 17
    ensures c.WaitMillis? ==> n == 10
    ensures c.SetConfig? ==> n == HeadSize + |c.config| + 1
    ensures c.Nop? || c.GoHome? || c.GoMark? || c.ResetPos? || c.WaitBusy? || c.WaitRunning? ==> n == HeadSize
  {
    HeadSize + |Payload(c)|
  }

  /** The packed record of a command with the given id. */
  function Encode(id: uint32, c: Command): (r: seq<byte>)
    ensures |r| == Size(c) && r[0] == Opcode(c)
  {
    [Opcode(c)] + PackLE32(id) + Payload(c)
  }

  datatype Entry = Entry(id: uint32, cmd: Command)

  function DecodeDir(f: seq<byte>): Option<Dir>
    requires |f| == 4
  {
    if f == EnumField(0) then Some(Rev) else if f == EnumField(1) then Some(Fwd) else None
  }

  function DecodePosAct(f: seq<byte>): Option<PosAct>
    requires |f| == 4
  {
    if f == EnumField(0) then Some(PosReset) else if f == EnumField(1) then Some(PosCopyMark) else None
  }

  function DecodeStop(p: seq<byte>): Option<(Command, nat)>
  {
    if |p| < 2 then None else Some((Stop(p[0] != 0, p[1] != 0), 2))
  }

  function DecodeRun(p: seq<byte>): Option<(Command, nat)>
  {
    if |p| < 8 then None
    else var d := DecodeDir(p[..4]);
      if d.None? then None else Some((Run(d.value, p[4..8]), 8))
  }

  function DecodeStepClock(p: seq<byte>): Option<(Command, nat)>
  {
    if |p| < 4 then None
    else var d := DecodeDir(p[..4]);
      if d.None? then None else Some((StepClock(d.value), 4))
  }

  function DecodeMove(p: seq<byte>): Option<(Command, nat)>
  {
    if |p| < 8 then None
    else var d := DecodeDir(p[..4]);
      if d.None? then None else Some((Move(d.value, UnpackLE32(p[4..8])), 8))
  }

  /** A goto record whose direction field holds 0xFF carries no direction. */
  function DecodeGoto(p: seq<byte>): Option<(Command, nat)>
  {
    if |p| < 8 then None
    else if p[..4] == EnumField(NoDirection) then Some((Goto(UnpackInt32(p[4..8]), None), 8))
    else var d := DecodeDir(p[..4]);
      if d.None? then None else Some((Goto(UnpackInt32(p[4..8]), d), 8))
  }

  function DecodeGoUntil(p: seq<byte>): Option<(Command, nat)>
  {
    if |p| < 12 then None
    else var a, d := DecodePosAct(p[..4]), DecodeDir(p[4..8]);
      if a.None? || d.None? then None else Some((GoUntil(a.value, d.value, p[8..12]), 12))
  }

  function DecodeReleaseSw(p: seq<byte>): Option<(Command, nat)>
  {
    if |p| < 8 then None
    else var a, d := DecodePosAct(p[..4]), DecodeDir(p[4..8]);
      if a.None? || d.None? then None else Some((ReleaseSw(a.value, d.value), 8))
  }

  function DecodePos(p: seq<byte>): Option<int32>
  {
    if |p| < 4 then None else Some(UnpackInt32(p[..4]))
  }

  /** A configuration record runs to the first NUL after its header. */
  function DecodeSetConfig(p: seq<byte>): Option<(Command, nat)>
  {
    var k := IndexOf(p, 0);
    if k == |p| then None else Some((SetConfig(p[..k]), k + 1))
  }

  function DecodeWaitMillis(p: seq<byte>): Option<(Command, nat)>
  {
    if |p| < 5 then None else Some((WaitMillis(UnpackLE32(p[1..5])), 5))
  }

  /** The command an opcode and the bytes after the header describe, and its
      payload length; None for an unknown opcode, a record cut short, or an
      enumeration field holding no enumerator. */
  function DecodeBody(op: byte, p: seq<byte>): Option<(Command, nat)>
  {
    if op == OpNop then Some((Nop, 0))
    else if op == OpWaitBusy then Some((WaitBusy, 0))
    else if op == OpWaitRunning then Some((WaitRunning, 0))
    else if op == OpGoHome then Some((GoHome, 0))
    else if op == OpGoMark then Some((GoMark, 0))
    else if op == OpResetPos then Some((ResetPos, 0))
    else if op == OpStop then DecodeStop(p)
    else if op == OpRun then DecodeRun(p)
    else if op == OpStepClk then DecodeStepClock(p)
    else if op == OpMove then DecodeMove(p)
    else if op == OpGoto then DecodeGoto(p)
    else if op == OpGoUntil then DecodeGoUntil(p)
    else if op == OpReleaseSw then DecodeReleaseSw(p)
    else if op == OpSetPos then
      var x := DecodePos(p); if x.None? then None else Some((SetPos(x.value), 4))
    else if op == OpSetMark then
      var x := DecodePos(p); if x.None? then None else Some((SetMark(x.value), 4))
    else if op == OpSetConfig then DecodeSetConfig(p)
    else if op == OpWaitMillis then DecodeWaitMillis(p)
    else None
  }

  /** The record at the front of the queue and its size. */
  function DecodeHead(q: seq<byte>): (r: Option<(Entry, nat)>)
    ensures r.Some? ==> HeadSize <= r.value.1 <= |q|
  {
    if |q| < HeadSize then None
    else match DecodeBody(q[0], q[HeadSize..])
      case None => None
      case Some((c, n)) =>
        if n <= |q| - HeadSize then Some((Entry(UnpackLE32(q[1..5]), c), HeadSize + n)) else None
  }

  lemma Split4(a: seq<byte>, rest: seq<byte>)
    requires |a| == 4
    ensures (a + rest)[..4] == a && (a + rest)[4..] == rest
  {
  }

  lemma DecodeDirField(d: Dir)
    ensures DecodeDir(EnumField(DirCode(d))) == Some(d)
  {
  }

  lemma DecodePosActField(a: PosAct)
    ensures DecodePosAct(EnumField(PosActCode(a))) == Some(a)
  {
  }

  lemma DecodeRunPayload(dir: Dir, stepss: FloatBits, rest: seq<byte>)
    ensures DecodeBody(OpRun, Payload(Run(dir, stepss)) + rest) == Some((Run(dir, stepss), 8))
  {
    var p := Payload(Run(dir, stepss)) + rest;
    assert p == EnumField(DirCode(dir)) + (stepss + rest);
    Split4(EnumField(DirCode(dir)), stepss + rest);
    assert p[4..8] == stepss;
    DecodeDirField(dir);
  }

  lemma DecodeStepClockPayload(dir: Dir, rest: seq<byte>)
    ensures DecodeBody(OpStepClk, Payload(StepClock(dir)) + rest) == Some((StepClock(dir), 4))
  {
    Split4(EnumField(DirCode(dir)), rest);
    DecodeDirField(dir);
  }

  lemma DecodeMovePayload(dir: Dir, steps: uint32, rest: seq<byte>)
    ensures DecodeBody(OpMove, Payload(Move(dir, steps)) + rest) == Some((Move(dir, steps), 8))
  {
    var p := Payload(Move(dir, steps)) + rest;
    assert p == EnumField(DirCode(dir)) + (PackLE32(steps) + rest);
    Split4(EnumField(DirCode(dir)), PackLE32(steps) + rest);
    assert p[4..8] == PackLE32(steps);
    UnpackPackLE32(steps);
    DecodeDirField(dir);
  }

  lemma DecodeGotoPayload(pos: int32, dir: Option<Dir>, rest: seq<byte>)
    ensures DecodeBody(OpGoto, Payload(Goto(pos, dir)) + rest) == Some((Goto(pos, dir), 8))
  {
    var f := EnumField(if dir.Some? then DirCode(dir.value) else NoDirection);
    Layout8(f, PackInt32(pos), rest);
    DecodeGotoFields(f + PackInt32(pos) + rest, pos, dir);
  }

  lemma Layout8(a: seq<byte>, b: seq<byte>, rest: seq<byte>)
    requires |a| == 4 && |b| == 4
    ensures |a + b + rest| >= 8 && (a + b + rest)[..4] == a && (a + b + rest)[4..8] == b
  {
  }

  lemma DecodeGotoFields(p: seq<byte>, pos: int32, dir: Option<Dir>)
    requires |p| >= 8 && p[4..8] == PackInt32(pos)
    requires p[..4] == EnumField(if dir.Some? then DirCode(dir.value) else NoDirection)
    ensures DecodeGoto(p) == Some((Goto(pos, dir), 8))
  {
    UnpackPackInt32(pos);
    if dir.Some? {
      DecodeDirField(dir.value);
      assert p[..4][0] != EnumField(NoDirection)[0];
    }
  }

  lemma DecodeGoUntilPayload(act: PosAct, dir: Dir, stepss: FloatBits, rest: seq<byte>)
    ensures DecodeBody(OpGoUntil, Payload(GoUntil(act, dir, stepss)) + rest) == Some((GoUntil(act, dir, stepss), 12))
  {
    var a, d := EnumField(PosActCode(act)), EnumField(DirCode(dir));
    var p := Payload(GoUntil(act, dir, stepss)) + rest;
    assert p == a + (d + stepss + rest);
    Split4(a, d + stepss + rest);
    assert p[4..8] == d && p[8..12] == stepss;
    DecodePosActField(act);
    DecodeDirField(dir);
  }

  lemma DecodeReleaseSwPayload(act: PosAct, dir: Dir, rest: seq<byte>)
    ensures DecodeBody(OpReleaseSw, Payload(ReleaseSw(act, dir)) + rest) == Some((ReleaseSw(act, dir), 8))
  {
    var a, d := EnumField(PosActCode(act)), EnumField(DirCode(dir));
    var p := Payload(ReleaseSw(act, dir)) + rest;
    assert p == a + (d + rest);
    Split4(a, d + rest);
    assert p[4..8] == d;
    DecodePosActField(act);
    DecodeDirField(dir);
  }

  lemma DecodeSetConfigPayload(config: seq<byte>, rest: seq<byte>)
    requires 0 !in config
    ensures DecodeBody(OpSetConfig, Payload(SetConfig(config)) + rest) == Some((SetConfig(config), |config| + 1))
  {
    var p := Payload(SetConfig(config)) + rest;
    var s := config + [0];
    var r := IndexOf(s, 0);
    assert s[|config|] == 0;
    assert r == |config|;
    IndexOfExtend(config + [0], rest, 0);
    assert p[..|config|] == config;
  }

  lemma DecodeWaitMillisPayload(ms: uint32, rest: seq<byte>)
    ensures DecodeBody(OpWaitMillis, Payload(WaitMillis(ms)) + rest) == Some((WaitMillis(ms), 5))
  {
    var p := Payload(WaitMillis(ms)) + rest;
    assert p[1..5] == PackLE32(ms);
    UnpackPackLE32(ms);
  }

  lemma DecodeBodyPayload(c: Command, rest: seq<byte>)
    requires ValidCommand(c)
    ensures DecodeBody(Opcode(c), Payload(c) + rest) == Some((c, |Payload(c)|))
  {
    match c {
      case Run(dir, stepss) => DecodeRunPayload(dir, stepss, rest);
      case StepClock(dir) => DecodeStepClockPayload(dir, rest);
      case Move(dir, steps) => DecodeMovePayload(dir, steps, rest);
      case Goto(pos, dir) => DecodeGotoPayload(pos, dir, rest);
      case GoUntil(act, dir, stepss) => DecodeGoUntilPayload(act, dir, stepss, rest);
      case ReleaseSw(act, dir) => DecodeReleaseSwPayload(act, dir, rest);
      case SetPos(pos) =>
        Split4(PackInt32(pos), rest);
        UnpackPackInt32(pos);
      case SetMark(pos) =>
        Split4(PackInt32(pos), rest);
        UnpackPackInt32(pos);
      case SetConfig(config) => DecodeSetConfigPayload(config, rest);
      case WaitMillis(ms) => DecodeWaitMillisPayload(ms, rest);
      case _ =>
    }
  }

  /** Decoding the front of a queue that starts with an encoded record gives
      back that record, whatever follows it. */
  lemma DecodeEncode(id: uint32, c: Command, rest: seq<byte>)
    requires ValidCommand(c)
    ensures DecodeHead(Encode(id, c) + rest) == Some((Entry(id, c), Size(c)))
  {
    var q := Encode(id, c) + rest;
    assert q[0] == Opcode(c);
    assert q[1..5] == PackLE32(id);
    UnpackPackLE32(id);
    assert q[HeadSize..] == Payload(c) + rest;
    DecodeBodyPayload(c, rest);
  }

  /** The records of a sequence of entries, back to back. */
  function Flatten(es: seq<Entry>): seq<byte>
  {
    if es == [] then [] else Encode(es[0].id, es[0].cmd) + Flatten(es[1..])
  }

  lemma {:induction false} FlattenSnoc(es: seq<Entry>, e: Entry)
    ensures Flatten(es + [e]) == Flatten(es) + Encode(e.id, e.cmd)
  {
    if es == [] {
      assert es + [e] == [e];
    } else {
      assert (es + [e])[1..] == es[1..] + [e];
      FlattenSnoc(es[1..], e);
    }
  }

  // The motor driver as the interpreter sees it.

  /** The driver operations the interpreter issues. */
  datatype DriverCall =
    | PsNop
    | PsSoftHiz | PsHardHiz | PsSoftStop | PsHardStop
    | PsRun(dir: Dir, stepss: FloatBits)
    | PsStepClock(dir: Dir)
    | PsMove(dir: Dir, steps: uint32)
    | PsGoto(pos: int32)
    | PsGotoDir(pos: int32, dir: Dir)
    | PsGoUntil(action: PosAct, dir: Dir, stepss: FloatBits)
    | PsReleaseSw(action: PosAct, dir: Dir)
    | PsGoHome | PsGoMark | PsResetPos
    | PsSetPos(pos: int32)
    | PsSetMark(pos: int32)

  /** The driver's busy and running flags after a given history of driver calls. */
  datatype Motor = Motor(busy: seq<DriverCall> -> bool, running: seq<DriverCall> -> bool)

  /** The stop the (hiz, soft) flags select: soft or hard, into high impedance or holding. */
  function StopCall(hiz: bool, soft: bool): (r: DriverCall)
    ensures hiz ==> r == (if soft then PsSoftHiz else PsHardHiz)
    ensures !hiz ==> r == (if soft then PsSoftStop else PsHardStop)
  {
    if hiz then (if soft then PsSoftHiz else PsHardHiz)
    else (if soft then PsSoftStop else PsHardStop)
  }

  /** What dispatching one command does to the driver. Directions pass through
      the reverse correction, and so do goto targets; setpos and setmark
      do not. A goto carries the direction exactly when one was given. */
  function Dispatch(c: Command, reverse: bool): seq<DriverCall>
  {
    match c
    case Nop => [PsNop]
    case WaitBusy => [PsNop]
    case WaitRunning => [PsNop]
    case Stop(hiz, soft) => [StopCall(hiz, soft)]
    case Run(dir, stepss) => [PsRun(MotorDir(reverse, dir), stepss)]
    case StepClock(dir) => [PsStepClock(MotorDir(reverse, dir))]
    case Move(dir, steps) => [PsMove(MotorDir(reverse, dir), steps)]
    case Goto(pos, dir) =>
      if dir.None? then [PsGoto(MotorPos(reverse, pos))]
      else [PsGotoDir(MotorPos(reverse, pos), MotorDir(reverse, dir.value))]
    case GoUntil(act, dir, stepss) => [PsGoUntil(act, MotorDir(reverse, dir), stepss)]
    case ReleaseSw(act, dir) => [PsReleaseSw(act, MotorDir(reverse, dir))]
    case GoHome => [PsGoHome]
    case GoMark => [PsGoMark]
    case ResetPos => [PsResetPos]
    case SetPos(pos) => [PsSetPos(pos)]
    case SetMark(pos) => [PsSetMark(pos)]
    case SetConfig(_) => []
    case WaitMillis(_) => []
  }

  function HasFlag(op: byte, flag: byte): bool
    requires flag == PreBusy || flag == PreStop
  {
    (op / flag) % 2 == 1
  }

  /** The precondition gate: a busy-gated opcode waits while the driver is busy,
      a stop-gated one while the motor runs. */
  predicate Blocked(op: byte, m: Motor, calls: seq<DriverCall>)
  {
    (HasFlag(op, PreBusy) && m.busy(calls)) || (HasFlag(op, PreStop) && m.running(calls))
  }

  /** The interpreter's state: the queued bytes and what it reports. */
  datatype LoopState = LoopState(
    q: seq<byte>, calls: seq<DriverCall>, thisCommand: uint32, lastCommand: uint32,
    lastCompleted: int, cmdError: bool)

  /** One call of the interpreter from state `s`, as intended: dispatch records
      from the front until the queue is empty or the front one is gated. A
      record that cannot be decoded flags a command error and discards the
      queue. `now` is the clock reading stored when a command completes. */
  function Tick(s: LoopState, m: Motor, reverse: bool, now: int): (r: LoopState)
    ensures s.cmdError ==> r.cmdError
    ensures |s.calls| <= |r.calls|
    decreases |s.q|
  {
    if s.q == [] then s
    else match DecodeHead(s.q)
      case None => s.(q := [], cmdError := true)
      case Some((e, n)) =>
        if Blocked(s.q[0], m, s.calls) then s.(thisCommand := e.id)
        else Tick(Advance(s, e, n, reverse, now), m, reverse, now)
  }

  /** The state after dispatching the front record `e` of size `n`. */
  function Advance(s: LoopState, e: Entry, n: nat, reverse: bool, now: int): (r: LoopState)
    requires n <= |s.q|
    ensures |r.q| == |s.q| - n
  {
    s.(q := s.q[n..], calls := s.calls + Dispatch(e.cmd, reverse), thisCommand := e.id,
       lastCommand := e.id, lastCompleted := now)
  }

  /** Dispatching an ungated front record and ticking on is the tick. */
  lemma TickStep(s: LoopState, e: Entry, n: nat, m: Motor, reverse: bool, now: int)
    requires s.q != [] && DecodeHead(s.q) == Some((e, n)) && !Blocked(s.q[0], m, s.calls)
    ensures Tick(s, m, reverse, now) == Tick(Advance(s, e, n, reverse, now), m, reverse, now)
  {
  }

  /** What a tick leaves in the queue is always a suffix of what it started with. */
  lemma {:induction false} TickLeavesSuffix(s: LoopState, m: Motor, reverse: bool, now: int)
    ensures var r := Tick(s, m, reverse, now);
      |r.q| <= |s.q| && r.q == s.q[|s.q| - |r.q|..]
    decreases |s.q|
  {
    if s.q != [] && DecodeHead(s.q).Some? {
      var (e, n) := DecodeHead(s.q).value;
      if !Blocked(s.q[0], m, s.calls) {
        var s' := Advance(s, e, n, reverse, now);
        TickStep(s, e, n, m, reverse, now);
        TickLeavesSuffix(s', m, reverse, now);
        var r := Tick(s', m, reverse, now);
        assert s'.q == s.q[n..];
        assert s.q[n..][|s.q[n..]| - |r.q|..] == s.q[|s.q| - |r.q|..];
      }
    }
  }

  /** A tick returns only with an empty queue or with a front record that
      decodes and is gated, which it reports as the current command; the
      driver calls issued before the tick are kept, in order. */
  lemma {:induction false} TickEnds(s: LoopState, m: Motor, reverse: bool, now: int)
    ensures var r := Tick(s, m, reverse, now);
      (r.q != [] ==>
        DecodeHead(r.q).Some? && Blocked(r.q[0], m, r.calls) && r.thisCommand == DecodeHead(r.q).value.0.id)
      && s.calls <= r.calls
    decreases |s.q|
  {
    if s.q != [] && DecodeHead(s.q).Some? {
      var (e, n) := DecodeHead(s.q).value;
      if !Blocked(s.q[0], m, s.calls) {
        var s' := Advance(s, e, n, reverse, now);
        TickStep(s, e, n, m, reverse, now);
        TickEnds(s', m, reverse, now);
      }
    }
  }

  /** A gated front record stops the tick with the queue byte for byte unchanged. */
  lemma TickBlocked(s: LoopState, m: Motor, reverse: bool, now: int)
    requires s.q != [] && DecodeHead(s.q).Some?
    requires Blocked(s.q[0], m, s.calls)
    ensures Tick(s, m, reverse, now) == s.(thisCommand := DecodeHead(s.q).value.0.id)
  {
  }

  /** A front record that cannot be decoded ends the tick with an error and an empty queue. */
  lemma TickUndecodable(s: LoopState, m: Motor, reverse: bool, now: int)
    requires s.q != [] && DecodeHead(s.q).None?
    ensures Tick(s, m, reverse, now) == s.(q := [], cmdError := true)
  {
  }

  /** The driver calls of a sequence of entries, in queue order. */
  function AllCalls(es: seq<Entry>, reverse: bool): seq<DriverCall>
  {
    if es == [] then [] else Dispatch(es[0].cmd, reverse) + AllCalls(es[1..], reverse)
  }

  predicate AllValid(es: seq<Entry>)
  {
    forall i :: 0 <= i < |es| ==> ValidCommand(es[i].cmd)
  }

  /** The motor never reports busy or running. */
  ghost predicate Idle(m: Motor)
  {
    forall h :: !m.busy(h) && !m.running(h)
  }

  /** With nothing gating, a queue of well-formed records drains completely in
      one tick, dispatching the records in the order they were queued, and the
      last one dispatched is the one reported. */
  lemma {:induction false} TickDrainsQueue(es: seq<Entry>, s: LoopState, m: Motor, reverse: bool, now: int)
    requires AllValid(es) && s.q == Flatten(es) && Idle(m)
    ensures var r := Tick(s, m, reverse, now);
      r.q == [] && r.calls == s.calls + AllCalls(es, reverse) && r.cmdError == s.cmdError &&
      (es != [] ==> r.lastCommand == es[|es| - 1].id && r.thisCommand == es[|es| - 1].id && r.lastCompleted == now)
    decreases |es|
  {
    if es != [] {
      DrainStep(es, s, m, reverse, now);
      var s' := Advance(s, es[0], Size(es[0].cmd), reverse, now);
      TickDrainsQueue(es[1..], s', m, reverse, now);
      if |es| == 1 {
        assert s'.q == [];
      } else {
        LastOfTail(es);
      }
      ConcatAssoc(s.calls, Dispatch(es[0].cmd, reverse), AllCalls(es[1..], reverse));
    }
  }

  /** One record of a drain: the tick goes on from the dispatched state. */
  lemma DrainStep(es: seq<Entry>, s: LoopState, m: Motor, reverse: bool, now: int)
    requires es != [] && AllValid(es) && s.q == Flatten(es) && Idle(m)
    ensures Size(es[0].cmd) <= |s.q|
    ensures var s' := Advance(s, es[0], Size(es[0].cmd), reverse, now);
      Tick(s, m, reverse, now) == Tick(s', m, reverse, now) && s'.q == Flatten(es[1..]) && AllValid(es[1..]) &&
      AllCalls(es, reverse) == Dispatch(es[0].cmd, reverse) + AllCalls(es[1..], reverse)
  {
    var e, tail := es[0], es[1..];
    assert ValidCommand(e.cmd);
    assert s.q == Encode(e.id, e.cmd) + Flatten(tail);
    TickIdleStep(s, e, Flatten(tail), m, reverse, now);
    AllValidTail(es);
  }

  /** An idle motor never gates: the front record is dispatched and the rest stays queued. */
  lemma TickIdleStep(s: LoopState, e: Entry, rest: seq<byte>, m: Motor, reverse: bool, now: int)
    requires ValidCommand(e.cmd) && s.q == Encode(e.id, e.cmd) + rest && Idle(m)
    ensures Size(e.cmd) <= |s.q|
    ensures Advance(s, e, Size(e.cmd), reverse, now).q == rest
    ensures Tick(s, m, reverse, now) == Tick(Advance(s, e, Size(e.cmd), reverse, now), m, reverse, now)
  {
    DecodeEncode(e.id, e.cmd, rest);
    assert !m.busy(s.calls) && !m.running(s.calls);
    TickStep(s, e, Size(e.cmd), m, reverse, now);
  }

  lemma LastOfTail<T>(s: seq<T>)
    requires |s| >= 2
    ensures s[1..][|s| - 2] == s[|s| - 1]
  {
  }

  lemma AllValidTail(es: seq<Entry>)
    requires es != [] && AllValid(es)
    ensures AllValid(es[1..])
  {
    forall i | 0 <= i < |es[1..]| ensures ValidCommand(es[1..][i].cmd) { assert es[1..][i] == es[i + 1]; }
  }

  // The queue itself.

  class Queue {
    /** The arena. */
    const Q: array<byte>
    var Qlen: nat
    /** The next id to hand out. */
    var Qid: uint32
    /** Set when a command does not fit (or, in the interpreter, cannot be decoded). */
    var cmdError: bool
    var thisCommand: uint32
    var lastCommand: uint32
    var lastCompleted: int
    /** Every driver call the interpreter has issued. */
    var calls: seq<DriverCall>

    predicate Valid()
      reads this
    {
      Q.Length == QSize && Qlen <= QSize
    }

    /** The queued bytes. */
    function Contents(): (r: seq<byte>)
      reads this, Q
      requires Valid()
      ensures |r| == Qlen
    {
      Q[..Qlen]
    }

    function State(): LoopState
      reads this, Q
      requires Valid()
    {
      LoopState(Contents(), calls, thisCommand, lastCommand, lastCompleted, cmdError)
    }

    /** The arena starts zeroed and empty, and the first id handed out is 1. */
    constructor ()
      ensures Valid() && Contents() == [] && Qid == 1 && !cmdError
      ensures thisCommand == 0 && lastCommand == 0 && calls == []
      ensures fresh(Q)
    {
      Q := new byte[QSize](_ => 0);
      Qlen := 0;
      Qid := 1;
      cmdError := false;
      thisCommand := 0;
      lastCommand := 0;
      lastCompleted := 0;
      calls := [];
    }

    /** check_Q and the record write of every cmd_* enqueuer: the record is
        appended when it fits, and takes the next id; otherwise the command
        error is flagged, 0 is returned and nothing else changes. */
    method Enqueue(c: Command) returns (id: uint32)
      requires Valid() && ValidCommand(c)
      modifies this, Q
      ensures Valid()
      ensures QSize - old(Qlen) >= Size(c) ==>
        id == old(Qid) && Qid == (old(Qid) + 1) % 0x1_0000_0000 &&
        Contents() == old(Contents()) + Encode(id, c) && cmdError == old(cmdError)
      ensures QSize - old(Qlen) < Size(c) ==>
        id == 0 && cmdError && Qid == old(Qid) && Qlen == old(Qlen) &&
        Contents() == old(Contents()) && Q[..] == old(Q[..])
      ensures Q[Qlen..] == old(Q[..])[Qlen..]
      ensures calls == old(calls) && thisCommand == old(thisCommand) && lastCommand == old(lastCommand)
      ensures lastCompleted == old(lastCompleted)
    {
      var s := Size(c);
      if QSize - Qlen < s {
        cmdError := true;
        return 0;
      }
      id := Qid;
      Qid := (Qid + 1) % 0x1_0000_0000;
      var rec := Encode(id, c);
      CopyIn(Q, Qlen, rec);
      Qlen := Qlen + s;
      assert Q[..Qlen] == old(Q[..Qlen]) + rec;
    }

    /** cmd_empty: discard everything and queue a single NOP. */
    method Empty() returns (id: uint32)
      requires Valid()
      modifies this, Q
      ensures Valid()
      ensures id == old(Qid) && Qid == (old(Qid) + 1) % 0x1_0000_0000
      ensures Contents() == Encode(id, Nop)
      ensures cmdError == old(cmdError) && calls == old(calls)
      ensures thisCommand == old(thisCommand) && lastCommand == old(lastCommand)
      ensures lastCompleted == old(lastCompleted)
    {
      Qlen := 0;
      assert Contents() == [];
      id := Enqueue(Nop);
    }

    /** cmd_estop: stop the motor at once as (hiz, soft) selects, then empty the queue. */
    method EStop(hiz: bool, soft: bool) returns (id: uint32)
      requires Valid()
      modifies this, Q
      ensures Valid()
      ensures calls == old(calls) + [StopCall(hiz, soft)]
      ensures id == old(Qid) && Qid == (old(Qid) + 1) % 0x1_0000_0000
      ensures Contents() == Encode(id, Nop)
      ensures cmdError == old(cmdError)
      ensures thisCommand == old(thisCommand) && lastCommand == old(lastCommand)
      ensures lastCompleted == old(lastCompleted)
    {
      calls := calls + [StopCall(hiz, soft)];
      id := Empty();
    }

    /** cmd_loop, as intended: runs `Tick` on the arena in place. */
    method Loop(m: Motor, reverse: bool, now: int)
      requires Valid()
      modifies this, Q
      ensures Valid()
      ensures State() == Tick(old(State()).(thisCommand := 0), m, reverse, now)
      ensures Qid == old(Qid)
    {
      thisCommand := 0;
      ghost var goal := Tick(State(), m, reverse, now);
      while Qlen > 0
        invariant Valid() && Qid == old(Qid)
        invariant Tick(State(), m, reverse, now) == goal
        decreases Qlen
      {
        var stop := Step(m, reverse, now);
        if stop {
          return;
        }
      }
    }

    /** One pass of the interpreter loop over the front record: it is either
        dispatched and removed, or the tick stops there. */
    method Step(m: Motor, reverse: bool, now: int) returns (stop: bool)
      requires Valid() && Qlen > 0
      modifies this, Q
      ensures Valid() && Qid == old(Qid)
      ensures stop ==> State() == Tick(old(State()), m, reverse, now)
      ensures !stop ==> Qlen < old(Qlen) && Tick(State(), m, reverse, now) == Tick(old(State()), m, reverse, now)
    {
      ghost var st := State();
      var head := DecodeHead(Q[..Qlen]);
      if head.None? {
        TickUndecodable(st, m, reverse, now);
        cmdError, Qlen := true, 0;
        return true;
      }
      var e, n := head.value.0, head.value.1;
      if Blocked(Q[0], m, calls) {
        TickBlocked(st, m, reverse, now);
        thisCommand := e.id;
        return true;
      }
      TickStep(st, e, n, m, reverse, now);
      Consume(e, n, reverse, now);
      return false;
    }

    /** The dispatch of the front record `e` of `n` bytes: its driver calls
        are issued, the bookkeeping records it, and the `memmove` drops it. */
    method Consume(e: Entry, n: nat, reverse: bool, now: int)
      requires Valid() && 0 < n <= Qlen
      modifies this, Q
      ensures Valid() && Qid == old(Qid) && Qlen < old(Qlen)
      ensures State() == Advance(old(State()), e, n, reverse, now)
    {
      ShiftDown(Q, n, Qlen);
      Qlen, calls, thisCommand, lastCommand, lastCompleted :=
        Qlen - n, calls + Dispatch(e.cmd, reverse), e.id, e.id, now;
    }
  }

  // Findings: the interpreter as written.

  /** The bytes consumed for an opcode in the interpreter as written: the
      switch has no default, so an unknown opcode consumes nothing. (For a
      configuration record, the written `sizeof(cmd_)` is read as the record size.) */
  function ConsumeAsWritten(q: seq<byte>): nat
    requires |q| >= HeadSize
  {
    var op := q[0];
    if op in {OpNop, OpWaitBusy, OpWaitRunning, OpGoHome, OpGoMark, OpResetPos} then HeadSize
    else if op == OpStop then 7
    else if op in {OpRun, OpMove, OpGoto, OpReleaseSw} then 13
    else if op in {OpStepClk, OpSetPos, OpSetMark} then 9
    else if op == OpGoUntil then 17
    else if op == OpWaitMillis then 10
    else if op == OpSetConfig then HeadSize + IndexOf(q[HeadSize..], 0) + 1
    else 0
  }

  /** An unknown opcode at the front: the written loop consumes nothing, so it
      sees the same non-empty queue again and never returns. */
  lemma UnknownOpcodeLoopsForever()
    ensures var q: seq<byte> := [0x11, 0, 0, 0, 0];
      ConsumeAsWritten(q) == 0 && q[ConsumeAsWritten(q)..] == q
  {
  }

  /** The corrected interpreter reports the same record as a command error and
      empties the queue, so the tick ends. */
  lemma UnknownOpcodeCorrected(s: LoopState, m: Motor, reverse: bool, now: int)
    requires s.q == [0x11, 0, 0, 0, 0]
    ensures Tick(s, m, reverse, now) == s.(q := [], cmdError := true)
  {
  }

  /** The record the arena shows after the written memmove: `a` is the arena,
      `qlen` the queue length and `n` the size of the consumed record. */
  function ArenaAfterShift(a: seq<byte>, qlen: nat, n: nat): (r: seq<byte>)
    requires n <= qlen <= |a|
    ensures |r| == |a|
  {
    a[n..qlen] + a[qlen - n..]
  }

  /** last_command as written: the id field read from the arena after the
      memmove, that is, from the next record. */
  function LastCommandAsWritten(a: seq<byte>, qlen: nat, n: nat): uint32
    requires n <= qlen <= |a| && |a| >= HeadSize
  {
    UnpackLE32(ArenaAfterShift(a, qlen, n)[1..5])
  }

  /** Two NOPs with ids 1 and 2: after the first is consumed the written code
      records id 2, a command that has not run, as the last completed one. */
  lemma LastCommandReadAfterShift()
    ensures var a := Encode(1, Nop) + Encode(2, Nop);
      LastCommandAsWritten(a, 10, 5) == 2
  {
    var a := Encode(1, Nop) + Encode(2, Nop);
    assert ArenaAfterShift(a, 10, 5)[1..5] == PackLE32(2);
    UnpackPackLE32(2);
  }

  /** The corrected interpreter reports the consumed record's id. */
  lemma LastCommandCorrected(s: LoopState, m: Motor, reverse: bool, now: int)
    requires s.q == Encode(1, Nop) + Encode(2, Nop) && Idle(m)
    ensures Tick(s, m, reverse, now).lastCommand == 2
    ensures Tick(s.(q := Encode(1, Nop)), m, reverse, now).lastCommand == 1
  {
    var es := [Entry(1, Nop), Entry(2, Nop)];
    assert Flatten(es[1..][1..]) == [];
    assert Flatten(es) == s.q;
    TickDrainsQueue(es, s, m, reverse, now);
    var es1 := [Entry(1, Nop)];
    assert Flatten(es1) == Encode(1, Nop);
    TickDrainsQueue(es1, s.(q := Encode(1, Nop)), m, reverse, now);
  }

  /** Whether the written goto dispatch uses the directed form: it tests the
      direction field the wrong way round. */
  function GotoDirectedAsWritten(dirField: byte): bool
  {
    dirField == NoDirection
  }

  /** The written test drops a requested direction and passes the "no
      direction" marker to the driver as if it were one. */
  lemma GotoDirectionInverted()
    ensures !GotoDirectedAsWritten(DirCode(Fwd))
    ensures !GotoDirectedAsWritten(DirCode(Rev))
    ensures GotoDirectedAsWritten(NoDirection)
  {
  }

  /** The corrected goto carries the direction exactly when one was queued. */
  lemma GotoDirectionCorrected(pos: int32, dir: Option<Dir>, reverse: bool)
    ensures |Dispatch(Goto(pos, dir), reverse)| == 1
    ensures Dispatch(Goto(pos, dir), reverse)[0].PsGotoDir? <==> dir.Some?
    ensures dir.Some? ==> Dispatch(Goto(pos, dir), reverse)[0].dir == MotorDir(reverse, dir.value)
  {
  }
}
