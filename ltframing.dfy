/** The byte-level framing shared by the two local TCP services of the
    firmware (the acknowledged "lowcom" protocol and the older "lowtcp" one),
    and the per-connection slot both keep: a 1024-byte input arena `I`, a
    256-byte output arena `O` and the connection flags.

    A packet starts with a 4-byte preamble (magic1 0xAE, magic2 0x7B11
    little-endian, type). A STD packet continues with an 8-byte header
    (opcode, subcode, address, queue, packet id and payload length, both
    16-bit little-endian) and the payload. */
module LocalFraming {
  import opened Bytes

  const LtcSize: nat := 2
  const ISize: nat := 1024
  const OSize: nat := 256
  const Magic1: byte := 0xAE
  const Magic2: uint16 := 0x7B11
  const PreambleSize: nat := 4
  const HeaderSize: nat := 8
  /** Preamble plus header: the fixed part of a STD packet. */
  const StdHead: nat := 12
  const PingTimeout: nat := 3000

  const TypeError: byte := 0x00
  const TypeHello: byte := 0x01
  const TypeGoodbye: byte := 0x02
  const TypePing: byte := 0x03
  const TypeStd: byte := 0x04
  const TypeCrypto: byte := 0x05
  const TypeMax: byte := 0x05

  const OpEstop: byte := 0x00
  const OpSetConfig: byte := 0x01
  const OpGetConfig: byte := 0x02
  const OpLastWill: byte := 0x03
  const OpStop: byte := 0x11
  const OpRun: byte := 0x12
  const OpStepClock: byte := 0x13
  const OpMove: byte := 0x14
  const OpGoto: byte := 0x15
  const OpGoUntil: byte := 0x16
  const OpReleaseSw: byte := 0x17
  const OpGoHome: byte := 0x18
  const OpGoMark: byte := 0x19
  const OpResetPos: byte := 0x1A
  const OpSetPos: byte := 0x1B
  const OpSetMark: byte := 0x1C
  const OpWaitBusy: byte := 0x21
  const OpWaitRunning: byte := 0x22
  const OpWaitMs: byte := 0x23
  const OpWaitSwitch: byte := 0x24
  const OpEmptyQueue: byte := 0x31
  const OpSaveQueue: byte := 0x32
  const OpLoadQueue: byte := 0x33
  const OpAddQueue: byte := 0x34
  const OpCopyQueue: byte := 0x35
  const OpRunQueue: byte := 0x36
  const OpGetQueue: byte := 0x37

  const SubNack: byte := 0x00
  const SubAck: byte := 0x01
  const SubCmd: byte := 0x02

  /** Packed sizes of the command payload structs (cmdpriv.h); enumerations
      are 4 bytes, `bool` 1. The switch-state payload struct is not part of
      this model and is taken to be one byte. */
  const SizeStop: nat := 2
  const SizeRun: nat := 8
  const SizeStepClk: nat := 4
  const SizeMove: nat := 8
  const SizeGoto: nat := 9
  const SizeGoUntil: nat := 12
  const SizeReleaseSw: nat := 8
  const SizeSetPos: nat := 4
  const SizeWaitMs: nat := 4
  const SizeWaitSw: nat := 1

  /** The magic2 field of a preamble. */
  function Magic2Field(b: seq<byte>): uint16
    requires |b| >= 3
  {
    UnpackLE16(b[1..3])
  }

  /** The preamble check of lc_handletype. */
  predicate PreambleOk(b: seq<byte>)
    requires |b| >= PreambleSize
  {
    Magic2Field(b) == Magic2 && b[3] <= TypeMax
  }

  /** lc_packpreamble. */
  function Preamble(t: byte): (r: seq<byte>)
    ensures |r| == PreambleSize && r[0] == Magic1 && r[3] == t
    ensures Magic2Field(r) == Magic2
    ensures t <= TypeMax ==> PreambleOk(r)
  {
    var r := [Magic1] + PackLE16(Magic2) + [t];
    assert r[1..3] == PackLE16(Magic2);
    UnpackPackLE16(Magic2);
    r
  }

  datatype Header = Header(opcode: byte, subcode: byte, address: byte, queue: byte, packetid: uint16, length: uint16)

  function PackHeader(h: Header): (r: seq<byte>)
    ensures |r| == HeaderSize
  {
    [h.opcode, h.subcode, h.address, h.queue] + PackLE16(h.packetid) + PackLE16(h.length)
  }

  function UnpackHeader(b: seq<byte>): Header
    requires |b| >= HeaderSize
  {
    Header(b[0], b[1], b[2], b[3], UnpackLE16(b[4..6]), UnpackLE16(b[6..8]))
  }

  /** Reading a packed header back, whatever follows it, gives the header. */
  lemma UnpackPackHeader(h: Header, rest: seq<byte>)
    ensures UnpackHeader(PackHeader(h) + rest) == h
  {
    var b := PackHeader(h) + rest;
    assert b[4..6] == PackLE16(h.packetid);
    assert b[6..8] == PackLE16(h.length);
    UnpackPackLE16(h.packetid);
    UnpackPackLE16(h.length);
  }

  /** A STD packet: preamble, header, payload. */
  function StdPacket(h: Header, payload: seq<byte>): (r: seq<byte>)
    ensures |r| == StdHead + |payload|
  {
    Preamble(TypeStd) + PackHeader(h) + payload
  }

  /** The header a STD packet carries right after its preamble. */
  function StdHeader(b: seq<byte>): Header
    requires |b| >= StdHead
  {
    UnpackHeader(b[PreambleSize..])
  }

  /** The length of the whole STD packet at the front of `b`. */
  function PacketLen(b: seq<byte>): nat
    requires |b| >= StdHead
  {
    StdHead + StdHeader(b).length
  }

  /** lc_handletype's return value: how many bytes at the front of the input
      the handler consumes. It depends on the bytes only, in both services. */
  function Consume(b: seq<byte>): (r: nat)
    requires |b| >= PreambleSize
    ensures r <= |b|
  {
    if !PreambleOk(b) then 1
    else if b[3] == TypeHello || b[3] == TypeGoodbye || b[3] == TypePing then PreambleSize
    else if b[3] == TypeStd then
      if |b| < StdHead || |b| < PacketLen(b) then 0 else PacketLen(b)
    else 1
  }

  /** Exactly one byte is skipped for a bad magic2, a type above the range,
      an ERROR packet and a CRYPTO packet. */
  lemma ConsumeOne(b: seq<byte>)
    requires |b| >= PreambleSize
    ensures Consume(b) == 1 <==> !PreambleOk(b) || b[3] == TypeError || b[3] == TypeCrypto
  {
  }

  /** HELLO, GOODBYE and PING consume exactly their preamble. */
  lemma ConsumeControl(b: seq<byte>)
    requires |b| >= PreambleSize
    ensures Consume(b) == PreambleSize <==>
      PreambleOk(b) && (b[3] == TypeHello || b[3] == TypeGoodbye || b[3] == TypePing)
  {
  }

  /** Nothing is consumed exactly while a STD packet is incomplete. */
  lemma ConsumeNothing(b: seq<byte>)
    requires |b| >= PreambleSize
    ensures Consume(b) == 0 <==>
      PreambleOk(b) && b[3] == TypeStd && (|b| < StdHead || |b| < PacketLen(b))
  {
  }

  /** A complete STD packet is consumed whole, whatever follows it, and its
      header and payload read back unchanged. */
  lemma ConsumeStdPacket(h: Header, payload: seq<byte>, rest: seq<byte>)
    requires |payload| == h.length
    ensures var b := StdPacket(h, payload) + rest;
      PreambleOk(b) && b[3] == TypeStd && StdHeader(b) == h &&
      Consume(b) == StdHead + |payload| && b[StdHead..PacketLen(b)] == payload
  {
    var b := StdPacket(h, payload) + rest;
    assert b[..PreambleSize] == Preamble(TypeStd);
    assert b[1..3] == Preamble(TypeStd)[1..3];
    assert b[PreambleSize..] == PackHeader(h) + (payload + rest);
    UnpackPackHeader(h, payload + rest);
    assert b[StdHead..StdHead + |payload|] == payload;
  }

  /** Every prefix of a STD packet that holds the preamble but not the whole
      packet consumes nothing: the handler waits for more input. */
  lemma ConsumeStdPrefix(h: Header, payload: seq<byte>, n: nat)
    requires |payload| == h.length && PreambleSize <= n < StdHead + |payload|
    ensures Consume(StdPacket(h, payload)[..n]) == 0
  {
    var p := StdPacket(h, payload);
    var b := p[..n];
    assert b[1..3] == Preamble(TypeStd)[1..3];
    assert b[3] == TypeStd;
    if n >= StdHead {
      assert b[PreambleSize..] == PackHeader(h) + payload[..n - StdHead];
      UnpackPackHeader(h, payload[..n - StdHead]);
    }
  }

  /** The resync of the loop: the index of the next magic1 after the first
      byte, or the whole length when there is none. */
  function SyncSkip(b: seq<byte>): (r: nat)
    requires |b| >= 1
    ensures 1 <= r <= |b|
    ensures r < |b| ==> b[r] == Magic1
    ensures forall k :: 1 <= k < r ==> b[k] != Magic1
  {
    var i := IndexOf(b[1..], Magic1);
    assert forall k :: 1 <= k < 1 + i ==> b[k] == b[1..][k - 1];
    1 + i
  }

  /** Without a later magic1 the resync drops the whole input. */
  lemma SyncDropsAll(b: seq<byte>)
    requires |b| >= 1
    ensures SyncSkip(b) == |b| <==> Magic1 !in b[1..]
  {
    IndexOfAbsent(b[1..], Magic1);
  }

  /** One pass of the handle phase over a connection's input: resync when the
      first byte is not magic1, wait for a whole preamble, otherwise consume
      what lc_handletype reports. */
  function InputStep(b: seq<byte>): (r: seq<byte>)
    ensures |r| <= |b| && r == b[|b| - |r|..]
  {
    if b == [] then b
    else if b[0] != Magic1 then b[SyncSkip(b)..]
    else if |b| < PreambleSize then b
    else b[Consume(b)..]
  }

  /** After a resync the input is empty or starts at a magic1, so the next
      pass reads a preamble. */
  lemma InputStepSyncs(b: seq<byte>)
    requires b != [] && b[0] != Magic1
    ensures var r := InputStep(b); |r| < |b| && (r == [] || r[0] == Magic1)
  {
  }

  /** Errors the services report through seterror. */
  datatype Err = IBufFull | OBufFull | BadMessage

  /** The abstract state of one client slot. `wire` holds the bytes its socket
      accepted for sending; `errs` the errors reported for this slot. */
  datatype Conn = Conn(
    input: seq<byte>, output: seq<byte>,
    active: bool, initialized: bool, lastwill: byte, lastPing: int,
    wire: seq<byte>, errs: seq<Err>)

  predicate ConnOk(c: Conn)
  {
    |c.input| <= ISize && |c.output| <= OSize
  }

  /** The read phase of one slot: a full input arena is discarded with an
      IBUF error, then as much as fits is appended. */
  function ReadConn(c: Conn, avail: seq<byte>): (r: Conn)
    requires ConnOk(c)
    ensures ConnOk(r)
  {
    var kept := if |c.input| == ISize then [] else c.input;
    var n := if |avail| < ISize - |kept| then |avail| else ISize - |kept|;
    c.(input := kept + avail[..n],
       errs := if |c.input| == ISize then c.errs + [IBufFull] else c.errs)
  }

  /** Reading never loses input: either it is all kept and followed by a
      prefix of the new bytes, or a full arena was dropped with an error. */
  lemma ReadConnKeeps(c: Conn, avail: seq<byte>)
    requires ConnOk(c)
    ensures var r := ReadConn(c, avail);
      (|c.input| < ISize ==> r.input[..|c.input|] == c.input && r.errs == c.errs) &&
      (|c.input| == ISize <==> r.errs == c.errs + [IBufFull]) &&
      r.input[|r.input| - (|r.input| - (if |c.input| == ISize then 0 else |c.input|))..] ==
        avail[..|r.input| - (if |c.input| == ISize then 0 else |c.input|)]
  {
  }

  /** How many bytes the socket takes in lc_send: it is tried only while O is
      empty, and `room` is what its write call accepts. */
  function Accepted(olen: nat, len: nat, room: nat): (i: nat)
    ensures i <= len
    ensures olen > 0 ==> i == 0
  {
    if olen == 0 then (if room < len then room else len) else 0
  }

  /** lc_send on the connection's own socket: the socket takes what it can,
      the rest goes to O if it fits, otherwise it is dropped with an OBUF error. */
  function SendConn(c: Conn, data: seq<byte>, room: nat): (r: Conn)
    requires |c.output| <= OSize
    ensures |r.output| <= OSize
  {
    var i := Accepted(|c.output|, |data|, room);
    var c1 := c.(wire := c.wire + data[..i]);
    if i == |data| then c1
    else if |data| - i > OSize - |c.output| then c1.(errs := c.errs + [OBufFull])
    else c1.(output := c.output + data[i..])
  }

  /** What lc_send promises: bytes written to the socket followed by bytes
      appended to O are exactly the data unless an OBUF error is reported,
      which happens exactly when the unsent part does not fit; on that error
      O is unchanged; nothing overtakes bytes already waiting in O; no other
      field changes. */
  lemma SendDelivers(c: Conn, data: seq<byte>, room: nat)
    requires |c.output| <= OSize
    ensures var r := SendConn(c, data, room); var i := Accepted(|c.output|, |data|, room);
      r.wire == c.wire + data[..i] &&
      (r.errs == c.errs + [OBufFull] <==> i < |data| && |data| - i > OSize - |c.output|) &&
      (r.errs == c.errs ==> r.output == c.output + data[i..] || (i == |data| && r.output == c.output)) &&
      (r.errs != c.errs ==> r.output == c.output) &&
      (c.output != [] ==> r.wire == c.wire) &&
      r.input == c.input && r.active == c.active && r.initialized == c.initialized &&
      r.lastwill == c.lastwill && r.lastPing == c.lastPing
  {
  }

  /** The motor-layer targets lc_handlepacket dispatches to (m_*). */
  datatype Target =
    | MEstop | MSetConfig | MStop | MRun | MStepClock | MMove | MGoto | MGoUntil | MReleaseSw
    | MGoHome | MGoMark | MResetPos | MSetPos | MSetMark
    | MWaitBusy | MWaitRunning | MWaitMs | MWaitSwitch
    | MEmptyQueue | MSaveQueue | MLoadQueue | MCopyQueue

  /** A call into code outside the services: a motor-layer call with its
      address, queue (none for estop), id and argument bytes as received;
      the last-will copy into queue 0; the last-will replay on a daisy slave. */
  datatype Call =
    | MotorCall(target: Target, address: byte, queue: Option<byte>, id: uint32, args: seq<byte>)
    | LastWillCopy(id: uint32, source: byte)
    | SlaveEmpty(slave: byte, id: uint32)
    | SlaveCopy(slave: byte, id: uint32, source: byte)

  /** How lc_handlepacket treats an opcode: a fixed payload size and target,
      or one of the special cases. */
  datatype Rule =
    | Fixed(target: Target, size: nat)
    | ConfigString
    | LastWill
    | CopyFrom
    | RunQueue
    | NoAction

  function RuleOf(op: byte): Rule
  {
    if op == OpEstop then Fixed(MEstop, SizeStop)
    else if op == OpSetConfig then ConfigString
    else if op == OpLastWill then LastWill
    else if op == OpStop then Fixed(MStop, SizeStop)
    else if op == OpRun then Fixed(MRun, SizeRun)
    else if op == OpStepClock then Fixed(MStepClock, SizeStepClk)
    else if op == OpMove then Fixed(MMove, SizeMove)
    else if op == OpGoto then Fixed(MGoto, SizeGoto)
    else if op == OpGoUntil then Fixed(MGoUntil, SizeGoUntil)
    else if op == OpReleaseSw then Fixed(MReleaseSw, SizeReleaseSw)
    else if op == OpGoHome then Fixed(MGoHome, 0)
    else if op == OpGoMark then Fixed(MGoMark, 0)
    else if op == OpResetPos then Fixed(MResetPos, 0)
    else if op == OpSetPos then Fixed(MSetPos, SizeSetPos)
    else if op == OpSetMark then Fixed(MSetMark, SizeSetPos)
    else if op == OpWaitBusy then Fixed(MWaitBusy, 0)
    else if op == OpWaitRunning then Fixed(MWaitRunning, 0)
    else if op == OpWaitMs then Fixed(MWaitMs, SizeWaitMs)
    else if op == OpWaitSwitch then Fixed(MWaitSwitch, SizeWaitSw)
    else if op == OpEmptyQueue then Fixed(MEmptyQueue, 0)
    else if op == OpSaveQueue then Fixed(MSaveQueue, 0)
    else if op == OpLoadQueue then Fixed(MLoadQueue, 0)
    else if op == OpCopyQueue then CopyFrom
    else if op == OpRunQueue then RunQueue
    else NoAction
  }

  /** The motor call of a fixed-size command: estop carries no queue. */
  function FixedCall(t: Target, h: Header, id: uint32, data: seq<byte>): (r: Call)
    ensures r.MotorCall? && r.target == t && r.address == h.address && r.id == id && r.args == data
    ensures r.queue.None? <==> t == MEstop
  {
    MotorCall(t, h.address, if t == MEstop then None else Some(h.queue), id, data)
  }

  /** The SETCONFIG payload check: non-empty and NUL-terminated. */
  predicate ConfigOk(data: seq<byte>)
  {
    |data| > 0 && data[|data| - 1] == 0
  }

  /** What lc_handlepacket does with one STD packet: the external calls it
      issues, whether it reports a message error, the last will it records,
      the reply it sends and how many ids it draws from nextid(). */
  datatype Outcome = Outcome(calls: seq<Call>, error: bool, lastwill: Option<byte>, reply: seq<byte>, ids: nat)

  /** The slot side of an outcome: a message error is recorded, a last will
      is stored and the reply is sent. */
  function Settled(c: Conn, o: Outcome, room: nat): (r: Conn)
    requires ConnOk(c)
    ensures ConnOk(r) && r.input == c.input && r.active == c.active && r.initialized == c.initialized
  {
    var c1 := c.(errs := if o.error then c.errs + [BadMessage] else c.errs,
                 lastwill := if o.lastwill.Some? then o.lastwill.value else c.lastwill);
    if o.reply != [] then SendConn(c1, o.reply, room) else c1
  }

  /** The slot side of a GOODBYE: the last will is cleared, the packet is
      echoed when `echo` holds, and the slot becomes inactive. */
  function Closed(c: Conn, echo: bool, b: seq<byte>, room: nat): (r: Conn)
    requires ConnOk(c)
    ensures ConnOk(r) && r.input == c.input && !r.active && r.lastwill == 0
    ensures r.initialized == c.initialized && r.lastPing == c.lastPing
    ensures !echo ==> r.output == c.output && r.wire == c.wire && r.errs == c.errs
  {
    var c1 := c.(lastwill := 0);
    (if echo then SendConn(c1, b, room) else c1).(active := false)
  }

  /** The id counter after `k` draws of nextid(): a wrapping 32-bit counter. */
  function IdAfter(id: uint32, k: nat): uint32
  {
    (id + k) % 0x1_0000_0000
  }

  lemma IdAfterAdd(id: uint32, a: nat, b: nat)
    ensures IdAfter(IdAfter(id, a), b) == IdAfter(id, a + b)
  {
    ModAddLeft32(b, id + a);
  }

  lemma ModAddLeft32(a: int, b: int)
    ensures (a + b % 0x1_0000_0000) % 0x1_0000_0000 == (a + b) % 0x1_0000_0000
  {
  }
}
