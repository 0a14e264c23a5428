/** The acknowledged local TCP protocol of lowcom.cpp: the checks of
    lc_handlepacket, the ACK packet of lc_replyack, and the socket its
    lc_send actually writes to. */
module LowCom {
  import opened Bytes
  import opened LocalFraming

  /** lc_replyack: a STD packet with subcode ACK whose 4-byte payload is the id. */
  function AckPacket(opcode: byte, address: byte, queue: byte, packetid: uint16, id: uint32): (r: seq<byte>)
    ensures |r| == StdHead + 4
  {
    StdPacket(Header(opcode, SubAck, address, queue, packetid, 4), PackLE32(id))
  }

  /** An ACK is a complete STD packet for the receiving parser: consumed whole,
      subcode ACK, the opcode, address, queue and packet id echoed, and the id
      readable from its payload. */
  lemma AckPacketReads(opcode: byte, address: byte, queue: byte, packetid: uint16, id: uint32, rest: seq<byte>)
    ensures var b := AckPacket(opcode, address, queue, packetid, id) + rest;
      PreambleOk(b) && b[3] == TypeStd && Consume(b) == StdHead + 4 &&
      StdHeader(b) == Header(opcode, SubAck, address, queue, packetid, 4) &&
      UnpackLE32(b[StdHead..StdHead + 4]) == id
  {
    var h := Header(opcode, SubAck, address, queue, packetid, 4);
    ConsumeStdPacket(h, PackLE32(id), rest);
    UnpackPackLE32(id);
  }

  /** A rejected packet: a message error and nothing else; an initialized
      client has already drawn its id. */
  function Rejected(ids: nat): Outcome
  {
    Outcome([], true, None, [], ids)
  }

  /** lc_handlepacket. `id` is what nextid() returns; it is drawn once for
      every packet of an initialized client, before the opcode is looked at. */
  function HandlePacket(initialized: bool, h: Header, data: seq<byte>, id: uint32): (r: Outcome)
    ensures !initialized ==> r == Rejected(0)
    ensures initialized ==> r.ids == 1
    ensures r.error ==> r.calls == [] && r.lastwill.None? && r.reply == []
    ensures r.reply != [] <==> r.calls != [] || r.lastwill.Some?
    ensures r.reply != [] ==>
      r.reply == AckPacket(h.opcode, if r.lastwill.Some? then 0 else h.address, h.queue, h.packetid, id)
    ensures |r.calls| <= 1 && forall k :: 0 <= k < |r.calls| ==> r.calls[k].MotorCall? && r.calls[k].id == id
  {
    if !initialized then Rejected(0)
    else
      var ack := AckPacket(h.opcode, h.address, h.queue, h.packetid, id);
      match RuleOf(h.opcode)
      case NoAction => Outcome([], false, None, [], 1)
      case Fixed(t, n) =>
        if |data| != n then Rejected(1)
        else Outcome([FixedCall(t, h, id, data)], false, None, ack, 1)
      case ConfigString =>
        if !ConfigOk(data) then Rejected(1)
        else Outcome([MotorCall(MSetConfig, h.address, Some(h.queue), id, data)], false, None, ack, 1)
      case LastWill =>
        if |data| != 0 then Rejected(1)
        else Outcome([], false, Some(h.queue), AckPacket(h.opcode, 0, h.queue, h.packetid, id), 1)
      case CopyFrom =>
        if |data| != 1 then Rejected(1)
        else Outcome([MotorCall(MCopyQueue, h.address, Some(h.queue), id, data)], false, None, ack, 1)
      case RunQueue =>
        if |data| != 0 then Rejected(1)
        else Outcome([MotorCall(MCopyQueue, h.address, Some(0), id, [h.queue])], false, None, ack, 1)
  }

  /** A fixed-size command is dispatched and acknowledged exactly when its
      payload has the struct's size; otherwise it is rejected unseen. */
  lemma FixedLengthEnforced(h: Header, data: seq<byte>, id: uint32)
    requires RuleOf(h.opcode).Fixed?
    ensures var r := HandlePacket(true, h, data, id); var rule := RuleOf(h.opcode);
      (|data| == rule.size ==>
        r.calls == [FixedCall(rule.target, h, id, data)] && !r.error &&
        r.reply == AckPacket(h.opcode, h.address, h.queue, h.packetid, id)) &&
      (|data| != rule.size ==> r == Rejected(1))
  {
  }

  /** SETCONFIG passes its payload on exactly when it is a non-empty,
      NUL-terminated string. */
  lemma SetConfigChecked(h: Header, data: seq<byte>, id: uint32)
    requires h.opcode == OpSetConfig
    ensures var r := HandlePacket(true, h, data, id);
      (r.calls == [MotorCall(MSetConfig, h.address, Some(h.queue), id, data)] <==> ConfigOk(data)) &&
      (r.error <==> !ConfigOk(data))
  {
  }

  /** LASTWILL takes an empty payload, records the header's queue and is
      acknowledged with address 0. */
  lemma LastWillFromQueue(h: Header, data: seq<byte>, id: uint32)
    requires h.opcode == OpLastWill
    ensures var r := HandlePacket(true, h, data, id);
      (r.lastwill == Some(h.queue) <==> |data| == 0) &&
      (|data| == 0 ==> r.calls == [] && r.reply == AckPacket(OpLastWill, 0, h.queue, h.packetid, id))
  {
  }

  /** RUNQUEUE copies the header's queue into queue 0; COPYQUEUE copies the
      payload's queue into the header's queue. */
  lemma QueueCopies(h: Header, data: seq<byte>, id: uint32)
    ensures h.opcode == OpRunQueue && |data| == 0 ==>
      HandlePacket(true, h, data, id).calls == [MotorCall(MCopyQueue, h.address, Some(0), id, [h.queue])]
    ensures h.opcode == OpCopyQueue && |data| == 1 ==>
      HandlePacket(true, h, data, id).calls == [MotorCall(MCopyQueue, h.address, Some(h.queue), id, [data[0]])]
  {
    if |data| == 1 {
      assert data == [data[0]];
    }
  }

  /** lc_send as written: the writability test and the write use the socket
      of slot 0 (`lowcom_client[i]` with `i` still 0), whichever slot is
      replying; only the buffering uses the replying slot. */
  function SendAsWritten(cs: seq<Conn>, client: nat, data: seq<byte>, room0: nat): (r: seq<Conn>)
    requires |cs| == LtcSize && client < |cs| && ConnOk(cs[client])
    ensures |r| == |cs|
  {
    var i := Accepted(|cs[client].output|, |data|, room0);
    var cs1 := cs[0 := cs[0].(wire := cs[0].wire + data[..i])];
    var c := cs1[client];
    if i == |data| then cs1
    else if |data| - i > OSize - |c.output| then cs1[client := c.(errs := c.errs + [OBufFull])]
    else cs1[client := c.(output := c.output + data[i..])]
  }

  /** A reply to slot 1 while its output arena is empty goes out whole on
      slot 0's socket, and slot 1 receives nothing. */
  lemma SendAsWrittenMisroutes(cs: seq<Conn>, data: seq<byte>, room0: nat)
    requires |cs| == LtcSize && ConnOk(cs[1]) && cs[1].output == []
    requires |data| > 0 && room0 >= |data|
    ensures var r := SendAsWritten(cs, 1, data, room0);
      r[0].wire == cs[0].wire + data && r[1].wire == cs[1].wire && r[1].output == []
  {
    assert data[..|data|] == data;
  }

  /** The corrected lc_send (SendConn, used by the model) delivers the same
      reply on the replying slot's own socket. */
  lemma SendCorrectedDelivers(c: Conn, data: seq<byte>, room: nat)
    requires ConnOk(c) && c.output == [] && room >= |data|
    ensures SendConn(c, data, room).wire == c.wire + data
    ensures SendConn(c, data, room).output == [] && SendConn(c, data, room).errs == c.errs
  {
    assert data[..|data|] == data;
  }
}
