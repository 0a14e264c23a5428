/** The browser interface: binary WebSocket frames whose first byte is an
    opcode. Two opcodes ask for a 14-byte reply (the driver status, or the
    position state), the others enqueue a motion command or set the
    position. Multi-byte integers travel as 4 little-endian bytes, speeds as
    the 4 bytes of a single-precision float. */
module WebSocket {
  import opened Bytes
  import opened PsTypes
  import opened Config
  import opened CommandQueue

  const OpReadStatus: byte := 0x11
  const OpReadState: byte := 0x12
  const OpCmdStop: byte := 0x21
  const OpCmdHiz: byte := 0x22
  const OpCmdGoto: byte := 0x23
  const OpCmdRun: byte := 0x24
  const OpStepClock: byte := 0x25
  const OpPos: byte := 0x31

  const CharFwd: byte := 'f' as int
  const CharRev: byte := 'r' as int
  const CharStopped: byte := 'x' as int
  const CharAccel: byte := 'a' as int
  const CharDecel: byte := 'd' as int
  const CharConstSpeed: byte := 's' as int

  datatype FrameType = TextFrame | BinaryFrame | OtherEvent

  // `ws_buf2int` and the byte view `ws_packint` copies out of its union are
  // Bytes.UnpackInt32 and Bytes.PackInt32.

  /** `ws_packint(i, &b[at])`. */
  method PackInt(i: int32, b: array<byte>, at: nat)
    requires at + 4 <= b.Length
    modifies b
    ensures b[..] == old(b[..at]) + PackInt32(i) + old(b[at + 4..])
  {
    var c := PackInt32(i);
    b[at] := c[0];
    b[at + 1] := c[1];
    b[at + 2] := c[2];
    b[at + 3] := c[3];
    assert b[..] == b[..at] + b[at..at + 4] + b[at + 4..];
  }

  /** A direction byte: 'r' is reverse, anything else forward. */
  function DirByte(c: byte): (d: Dir)
    ensures d == Rev <==> c == CharRev
  {
    if c == CharRev then Rev else Fwd
  }

  function MovementChar(m: Movement): byte
  {
    match m
    case Stopped => CharStopped
    case Accel => CharAccel
    case Decel => CharDecel
    case ConstSpeed => CharConstSpeed
  }

  lemma MovementCharInjective(a: Movement, b: Movement)
    ensures MovementChar(a) == MovementChar(b) ==> a == b
  {
  }

  /** The eleven flags of a READSTATUS reply, in reply order: HiZ, busy,
      user switch, step-clock mode, then the alarms command error,
      overcurrent, undervoltage, thermal shutdown, thermal warning, stall
      detected and user switch. */
  type FlagSet = s: seq<bool> | |s| == 11 witness [false, false, false, false, false, false, false, false, false, false, false]

  /** What the READSTATUS reply reports: the direction as the user sees it,
      the movement, and the flags. */
  datatype Report = Report(dir: Dir, movement: Movement, flags: FlagSet)

  /** The report for a driver status; `busy` is the driver's busy flag and
      `reverse` the motor configuration's direction reversal. The ADC
      undervoltage alarm is not reported. */
  function StatusReport(st: Status, busy: bool, reverse: bool): Report
  {
    Report(MotorDir(reverse, st.direction), st.movement,
      [st.hiz, busy, st.userSwitch, st.stepClock, st.alarms.commandError, st.alarms.overcurrent,
       st.alarms.undervoltage, st.alarms.thermalShutdown, st.alarms.thermalWarning,
       st.alarms.stallDetect, st.alarms.userSwitch])
  }

  function DirChar(d: Dir): byte
  {
    if d == Fwd then CharFwd else CharRev
  }

  /** One 0/1 byte per flag. */
  function FlagBytes(fs: seq<bool>): (b: seq<byte>)
    ensures |b| == |fs| && forall k :: 0 <= k < |fs| ==> b[k] == BoolByte(fs[k])
  {
    seq(|fs|, k requires 0 <= k < |fs| => BoolByte(fs[k]))
  }

  /** The READSTATUS reply: opcode, 'f' or 'r', the movement character, then
      one 0/1 byte per flag. */
  function StatusFrame(r: Report): (f: seq<byte>)
    ensures |f| == 14
  {
    [OpReadStatus, DirChar(r.dir), MovementChar(r.movement)] + FlagBytes(r.flags)
  }

  /** Byte 0 is the opcode, byte 1 is 'f' or 'r', byte 2 one of x/a/d/s, and
      bytes 3 to 13 are each 0 or 1, byte 3 + k holding flag k. */
  lemma StatusFrameShape(r: Report)
    ensures var f := StatusFrame(r);
      f[0] == OpReadStatus && (f[1] == CharFwd || f[1] == CharRev)
      && MovementOfChar(f[2]) == Some(r.movement) && FlagBytesOk(f)
      && forall k :: 0 <= k < 11 ==> (f[3 + k] == 1) == r.flags[k]
  {
    var f := StatusFrame(r);
    assert forall k :: 3 <= k < 14 ==> f[k] == FlagBytes(r.flags)[k - 3];
  }

  function MovementOfChar(c: byte): Option<Movement>
  {
    if c == CharStopped then Some(Stopped)
    else if c == CharAccel then Some(Accel)
    else if c == CharDecel then Some(Decel)
    else if c == CharConstSpeed then Some(ConstSpeed)
    else None
  }

  /** Every byte after the movement character is 0 or 1. */
  predicate FlagBytesOk(f: seq<byte>)
  {
    forall k :: 3 <= k < |f| ==> f[k] <= 1
  }

  /** Bytes read as flags: 1 is set. */
  function FlagsOf(b: seq<byte>): (fs: seq<bool>)
    ensures |fs| == |b| && forall k :: 0 <= k < |b| ==> fs[k] == (b[k] == 1)
  {
    seq(|b|, k requires 0 <= k < |b| => b[k] == 1)
  }

  predicate StatusShaped(f: seq<byte>)
  {
    |f| == 14 && f[0] == OpReadStatus && (f[1] == CharFwd || f[1] == CharRev) && FlagBytesOk(f)
      && MovementOfChar(f[2]).Some?
  }

  /** How a client reads a READSTATUS reply back. */
  function ParseStatusFrame(f: seq<byte>): Option<Report>
  {
    if StatusShaped(f) then
      Some(Report(if f[1] == CharFwd then Fwd else Rev, MovementOfChar(f[2]).value, FlagsOf(f[3..])))
    else None
  }

  /** The status reply loses nothing it reports ... */
  lemma ParseStatusFrameOfStatusFrame(r: Report)
    ensures ParseStatusFrame(StatusFrame(r)) == Some(r)
  {
    var f := StatusFrame(r);
    StatusFrameShape(r);
    assert f[3..] == FlagBytes(r.flags);
    assert FlagsOf(f[3..]) == r.flags;
  }

  /** ... and every well-formed reply is the reply of exactly one report. */
  lemma StatusFrameOfParse(f: seq<byte>)
    requires ParseStatusFrame(f).Some?
    ensures StatusFrame(ParseStatusFrame(f).value) == f
  {
    var t := f[3..];
    assert FlagBytes(FlagsOf(t)) == t;
    assert f == f[..3] + t;
  }

  /** The READSTATUS reply of a driver status, byte by byte: the direction
      as the user sees it, the movement character, and at bytes 3 to 13 the
      HiZ, busy, user-switch and step-clock flags followed by the seven
      alarms. */
  lemma StatusReplyBytes(st: Status, busy: bool, reverse: bool)
    ensures var f := StatusFrame(StatusReport(st, busy, reverse));
      f[0] == OpReadStatus && (f[1] == CharFwd <==> MotorDir(reverse, st.direction) == Fwd)
      && f[2] == MovementChar(st.movement)
      && f[3] == BoolByte(st.hiz) && f[4] == BoolByte(busy) && f[5] == BoolByte(st.userSwitch)
      && f[6] == BoolByte(st.stepClock) && f[7] == BoolByte(st.alarms.commandError)
      && f[8] == BoolByte(st.alarms.overcurrent) && f[9] == BoolByte(st.alarms.undervoltage)
      && f[10] == BoolByte(st.alarms.thermalShutdown) && f[11] == BoolByte(st.alarms.thermalWarning)
      && f[12] == BoolByte(st.alarms.stallDetect) && f[13] == BoolByte(st.alarms.userSwitch)
  {
    var r := StatusReport(st, busy, reverse);
    var f := StatusFrame(r);
    assert f[3..] == FlagBytes(r.flags);
  }

  /** The motor state the READSTATE reply reports, in driver coordinates. */
  datatype MotorState = MotorState(pos: int32, mark: int32, stepss: FloatBits, busy: bool)

  function StateFrame(m: MotorState, reverse: bool): (f: seq<byte>)
    ensures |f| == 14 && f[0] == OpReadState && f[13] <= 1
  {
    [OpReadState] + PackInt32(MotorPos(reverse, m.pos)) + PackInt32(MotorPos(reverse, m.mark))
      + m.stepss + [BoolByte(m.busy)]
  }

  /** A client that knows the configuration's reversal reads back the
      driver's position, mark, speed bytes and busy flag. */
  lemma StateFrameFields(m: MotorState, reverse: bool)
    ensures var f := StateFrame(m, reverse);
      MotorPos(reverse, UnpackInt32(f[1..5])) == m.pos && MotorPos(reverse, UnpackInt32(f[5..9])) == m.mark
      && f[9..13] == m.stepss && (f[13] == 1) == m.busy
  {
    var f := StateFrame(m, reverse);
    var p, k := MotorPos(reverse, m.pos), MotorPos(reverse, m.mark);
    assert f[1..5] == PackInt32(p);
    assert f[5..9] == PackInt32(k);
    UnpackPackInt32(p);
    UnpackPackInt32(k);
    MotorPosInvolution(reverse, m.pos);
    MotorPosInvolution(reverse, m.mark);
  }

  /** What one `ws_event` call does. */
  datatype Effect =
    | Ignored
    | SentStatus(clearErrors: bool, frame: seq<byte>)
    | SentState(frame: seq<byte>)
    | Enqueued(id: uint32, cmd: Command)
    | PositionReset
    | PositionSet(pos: int32)

  /** The environment of an event: the id `nextid()` would hand out, what
      the driver reports, the motor state and the direction reversal. */
  datatype Env = Env(id: uint32, status: Status, busy: bool, motor: MotorState, reverse: bool)

  /** The frame length each command opcode needs, and 0 for the others. */
  function CommandLength(op: byte): nat
  {
    if op == OpCmdStop || op == OpCmdHiz || op == OpStepClock then 2
    else if op == OpCmdGoto || op == OpPos then 5
    else if op == OpCmdRun then 7
    else 0
  }

  /** `ws_event(num, type, data, len)` for the frame `data`. READSTATUS reads
      `data[1]` without a length check; `past` is the byte after the frame,
      which it reads when the frame is only the opcode. */
  function Event(ty: FrameType, data: seq<byte>, past: byte, env: Env): (e: Effect)
    ensures |data| < 1 || ty != BinaryFrame ==> e == Ignored
    ensures e.Enqueued? ==> IsCommandOp(data[0]) && |data| == CommandLength(data[0]) && e.id == env.id
    ensures (e.PositionReset? || e.PositionSet?) ==> data[0] == OpPos && |data| == 5
    ensures (e.SentStatus? || e.SentState?) ==> |e.frame| == 14
  {
    if |data| < 1 || ty != BinaryFrame then Ignored
    else
      var op := data[0];
      if op == OpReadStatus then
        SentStatus((if |data| >= 2 then data[1] else past) != 0,
          StatusFrame(StatusReport(env.status, env.busy, env.reverse)))
      else if op == OpReadState then SentState(StateFrame(env.motor, env.reverse))
      else if CommandLength(op) == 0 || |data| != CommandLength(op) then Ignored
      else if op == OpCmdStop then Enqueued(env.id, Stop(false, data[1] != 0))
      else if op == OpCmdHiz then Enqueued(env.id, Stop(true, data[1] != 0))
      else if op == OpCmdGoto then Enqueued(env.id, Goto(UnpackInt32(data[1..5]), None))
      else if op == OpCmdRun then Enqueued(env.id, Run(DirByte(data[1]), data[2..6]))
      else if op == OpStepClock then Enqueued(env.id, StepClock(DirByte(data[1])))
      else
        var pos := UnpackInt32(data[1..5]);
        if pos == 0 then PositionReset else PositionSet(pos)
  }

  /** A frame opcode that enqueues a motion command. */
  predicate IsCommandOp(op: byte)
  {
    op == OpCmdStop || op == OpCmdHiz || op == OpCmdGoto || op == OpCmdRun || op == OpStepClock
  }

  /** Exact lengths are enforced: a command frame enqueues its command when
      it has exactly its opcode's length, and has no effect otherwise; POS
      frames likewise need exactly 5 bytes. */
  lemma EventLengths(data: seq<byte>, past: byte, env: Env)
    requires |data| >= 1
    ensures IsCommandOp(data[0]) ==>
      (Event(BinaryFrame, data, past, env).Enqueued? <==> |data| == CommandLength(data[0]))
    ensures IsCommandOp(data[0]) && |data| != CommandLength(data[0]) ==> Event(BinaryFrame, data, past, env) == Ignored
    ensures data[0] == OpPos ==> (Event(BinaryFrame, data, past, env) != Ignored <==> |data| == 5)
  {
  }

  /** The requests a client can make, as structured values. */
  datatype Request =
    | ReadStatus(clear: bool)
    | ReadState
    | StopReq(soft: bool)
    | HizReq(soft: bool)
    | GotoReq(pos: int32)
    | RunReq(dir: Dir, stepss: FloatBits, stopSwitch: bool)
    | StepClockReq(dir: Dir)
    | PosReq(pos: int32)

  /** The canonical frame of a request. */
  function RequestFrame(q: Request): seq<byte>
  {
    match q
    case ReadStatus(c) => [OpReadStatus, BoolByte(c)]
    case ReadState => [OpReadState]
    case StopReq(soft) => [OpCmdStop, BoolByte(soft)]
    case HizReq(soft) => [OpCmdHiz, BoolByte(soft)]
    case GotoReq(p) => [OpCmdGoto] + PackInt32(p)
    case RunReq(d, sp, sw) => [OpCmdRun, DirChar(d)] + sp + [BoolByte(sw)]
    case StepClockReq(d) => [OpStepClock, DirChar(d)]
    case PosReq(p) => [OpPos] + PackInt32(p)
  }

  /** The request a binary frame carries, if any. */
  function RequestOf(data: seq<byte>, past: byte): Option<Request>
  {
    if |data| < 1 then None
    else
      var op := data[0];
      if op == OpReadStatus then Some(ReadStatus((if |data| >= 2 then data[1] else past) != 0))
      else if op == OpReadState then Some(ReadState)
      else if CommandLength(op) == 0 || |data| != CommandLength(op) then None
      else if op == OpCmdStop then Some(StopReq(data[1] != 0))
      else if op == OpCmdHiz then Some(HizReq(data[1] != 0))
      else if op == OpCmdGoto then Some(GotoReq(UnpackInt32(data[1..5])))
      else if op == OpCmdRun then Some(RunReq(DirByte(data[1]), data[2..6], data[6] == 1))
      else if op == OpStepClock then Some(StepClockReq(DirByte(data[1])))
      else Some(PosReq(UnpackInt32(data[1..5])))
  }

  /** What serving a request should do. The stop-switch flag of RUN is
      carried in the frame but not acted on. */
  function Served(q: Request, env: Env): Effect
  {
    match q
    case ReadStatus(c) => SentStatus(c, StatusFrame(StatusReport(env.status, env.busy, env.reverse)))
    case ReadState => SentState(StateFrame(env.motor, env.reverse))
    case StopReq(soft) => Enqueued(env.id, Stop(false, soft))
    case HizReq(soft) => Enqueued(env.id, Stop(true, soft))
    case GotoReq(p) => Enqueued(env.id, Goto(p, None))
    case RunReq(d, sp, _) => Enqueued(env.id, Run(d, sp))
    case StepClockReq(d) => Enqueued(env.id, StepClock(d))
    case PosReq(p) => if p == 0 then PositionReset else PositionSet(p)
  }

  /** `ws_event` on a binary frame decodes the request and serves it; a
      frame carrying no request has no effect. */
  lemma EventServesRequest(data: seq<byte>, past: byte, env: Env)
    ensures Event(BinaryFrame, data, past, env)
      == if RequestOf(data, past).Some? then Served(RequestOf(data, past).value, env) else Ignored
  {
  }

  /** Every request survives its canonical frame. */
  lemma RequestOfFrame(q: Request, past: byte)
    ensures RequestOf(RequestFrame(q), past) == Some(q)
  {
    var f := RequestFrame(q);
    match q
    case GotoReq(p) =>
      assert f[1..5] == PackInt32(p);
      UnpackPackInt32(p);
    case PosReq(p) =>
      assert f[1..5] == PackInt32(p);
      UnpackPackInt32(p);
    case RunReq(d, sp, sw) =>
      assert f[2..6] == sp;
    case _ =>
  }

  /** So a client that sends the canonical frame gets exactly the served effect. */
  lemma EventOfRequest(q: Request, past: byte, env: Env)
    ensures Event(BinaryFrame, RequestFrame(q), past, env) == Served(q, env)
  {
    RequestOfFrame(q, past);
    EventServesRequest(RequestFrame(q), past, env);
  }
}
