/** The older local TCP protocol of lowtcp.cpp: the same framing as lowcom
    without initialization check and without replies; an id is drawn only
    when a command is dispatched, and the last will comes from a one-byte
    payload. */
module LowTcp {
  import opened Bytes
  import opened LocalFraming

  function Rejected(): Outcome
  {
    Outcome([], true, None, [], 0)
  }

  /** lc_handlepacket of lowtcp.cpp; `id` is what nextid() returns when the
      dispatch draws one. */
  function HandlePacket(h: Header, data: seq<byte>, id: uint32): (r: Outcome)
    ensures r.reply == []
    ensures r.ids == |r.calls| && |r.calls| <= 1
    ensures r.error ==> r.calls == [] && r.lastwill.None?
    ensures forall k :: 0 <= k < |r.calls| ==> r.calls[k].MotorCall? && r.calls[k].id == id
  {
    match RuleOf(h.opcode)
    case NoAction => Outcome([], false, None, [], 0)
    case Fixed(t, n) =>
      if |data| != n then Rejected()
      else Outcome([FixedCall(t, h, id, data)], false, None, [], 1)
    case ConfigString =>
      if !ConfigOk(data) then Rejected()
      else Outcome([MotorCall(MSetConfig, h.address, Some(h.queue), id, data)], false, None, [], 1)
    case LastWill =>
      if |data| != 1 then Rejected()
      else Outcome([], false, Some(data[0]), [], 0)
    case CopyFrom =>
      if |data| != 1 then Rejected()
      else Outcome([MotorCall(MCopyQueue, h.address, Some(h.queue), id, data)], false, None, [], 1)
    case RunQueue =>
      if |data| != 0 then Rejected()
      else Outcome([MotorCall(MCopyQueue, h.address, Some(0), id, [h.queue])], false, None, [], 1)
  }

  /** A fixed-size command is dispatched exactly when its payload has the
      struct's size; otherwise it is rejected and draws no id. */
  lemma FixedLengthEnforced(h: Header, data: seq<byte>, id: uint32)
    requires RuleOf(h.opcode).Fixed?
    ensures var r := HandlePacket(h, data, id); var rule := RuleOf(h.opcode);
      (|data| == rule.size ==> r == Outcome([FixedCall(rule.target, h, id, data)], false, None, [], 1)) &&
      (|data| != rule.size ==> r == Rejected())
  {
  }

  /** LASTWILL needs a one-byte payload and records that byte. */
  lemma LastWillFromPayload(h: Header, data: seq<byte>, id: uint32)
    requires h.opcode == OpLastWill
    ensures var r := HandlePacket(h, data, id);
      (r.lastwill.Some? <==> |data| == 1) && (|data| == 1 ==> r.lastwill == Some(data[0]) && r.calls == []) &&
      (r.error <==> |data| != 1)
  {
  }

  lemma SetConfigChecked(h: Header, data: seq<byte>, id: uint32)
    requires h.opcode == OpSetConfig
    ensures var r := HandlePacket(h, data, id);
      (r.calls == [MotorCall(MSetConfig, h.address, Some(h.queue), id, data)] <==> ConfigOk(data)) &&
      (r.error <==> !ConfigOk(data))
  {
  }
}
