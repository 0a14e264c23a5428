/** The two local TCP services, lowcom.cpp and lowtcp.cpp, over their two
    client slots: the packet-type handler lc_handletype, the read and handle
    phases of the service loop, and the slot allocation, timeout and ping
    logic of the service update.

    The two files are the same code except for the packet handler (see the
    LowCom and LowTcp modules) and GOODBYE, which only lowcom echoes back to
    the client; `Dialect` selects between them. The HELLO payload (product,
    version, hostname, chip id), the daisy-chain configuration and the
    millis() clock come from outside and are inputs here. */
module LocalService {
  import opened Bytes
  import opened LocalFraming
  import LowCom
  import LowTcp

  /** Acked: lowcom.cpp. Plain: lowtcp.cpp. */
  datatype Dialect = Acked | Plain

  /** Inputs of one pass: the HELLO reply payload, whether this unit is the
      active master of a daisy chain (daisy enabled, configured as master and
      the chain's `service.daisy.active` set), its `service.daisy.numslaves`,
      and millis(). */
  datatype Env = Env(hello: seq<byte>, daisyMaster: bool, slaves: byte, millis: int)

  /** The effect of handling one packet of a slot: its new state, the
      external calls in order, and how many ids they drew. */
  datatype Step = Step(conn: Conn, calls: seq<Call>, ids: nat)

  function PacketOutcome(d: Dialect, initialized: bool, h: Header, data: seq<byte>, id: uint32): (o: Outcome)
    ensures o.error ==> o.calls == [] && o.lastwill.None?
    ensures d == Plain ==> o.reply == []
    ensures d == Acked && !initialized ==> o.calls == [] && o.reply == []
  {
    match d
    case Acked => LowCom.HandlePacket(initialized, h, data, id)
    case Plain => LowTcp.HandlePacket(h, data, id)
  }

  /** The last-will replay on daisy slaves s..slaves: each is emptied, then
      given a copy of the last-will queue, each call with a fresh id. The
      counter is wide enough to pass 255 (the written `uint8_t` one is
      `SlaveLoopAsWritten`). */
  function SlaveReplay(s: nat, slaves: nat, id: uint32, lw: byte): (r: seq<Call>)
    requires 1 <= s && slaves < 0x100
    decreases slaves + 1 - s
    ensures |r| == if s <= slaves then 2 * (slaves + 1 - s) else 0
    ensures forall k :: 0 <= k < |r| ==> (r[k].SlaveEmpty? || r[k].SlaveCopy?) && s <= r[k].slave as nat <= slaves
  {
    if s > slaves then []
    else [SlaveEmpty(s, id), SlaveCopy(s, IdAfter(id, 1), lw)] + SlaveReplay(s + 1, slaves, IdAfter(id, 2), lw)
  }

  // Finding: the slave counter as written.

  /** The written slave loop, `for (uint8_t i = s; i <= slaves; i++)`, run for
      at most `fuel` iterations. The counter wraps modulo 256; `None` means the
      loop had not ended when the fuel ran out. */
  function SlaveLoopAsWritten(i: byte, slaves: byte, id: uint32, lw: byte, fuel: nat): Option<seq<Call>>
    decreases fuel
  {
    if i > slaves then Some([])
    else if fuel == 0 then None
    else match SlaveLoopAsWritten((i + 1) % 0x100, slaves, IdAfter(id, 2), lw, fuel - 1)
      case None => None
      case Some(rest) => Some([SlaveEmpty(i, id), SlaveCopy(i, IdAfter(id, 1), lw)] + rest)
  }

  /** As written, 255 slaves hang GOODBYE: whatever the start and however many
      iterations are allowed, the byte counter never exceeds 255, so the loop
      never ends. */
  lemma {:induction false} SlaveLoopAsWrittenHangs(i: byte, id: uint32, lw: byte, fuel: nat)
    ensures SlaveLoopAsWritten(i, 255, id, lw, fuel) == None
    decreases fuel
  {
    if fuel > 0 {
      SlaveLoopAsWrittenHangs((i + 1) % 0x100, IdAfter(id, 2), lw, fuel - 1);
    }
  }

  /** Below 255 slaves the written loop ends after `slaves + 1 - i` iterations
      and issues exactly the replay of the corrected (wide) counter. */
  lemma {:induction false} SlaveLoopAsWrittenAgrees(i: byte, slaves: byte, id: uint32, lw: byte, fuel: nat)
    requires 1 <= i && slaves < 255 && fuel >= slaves + 1 - i
    ensures SlaveLoopAsWritten(i, slaves, id, lw, fuel) == Some(SlaveReplay(i, slaves, id, lw))
    decreases fuel
  {
    if i <= slaves {
      SlaveLoopAsWrittenAgrees(i + 1, slaves, IdAfter(id, 2), lw, fuel - 1);
    }
  }

  /** The corrected replay reaches every slave `k` of `s..slaves`, a full
      chain of 255 included: it is emptied, then given the copy, with the
      ids drawn in order. */
  lemma {:induction false} SlaveReplayAt(s: nat, slaves: nat, id: uint32, lw: byte, k: nat)
    requires 1 <= s <= k <= slaves < 0x100
    ensures var r := SlaveReplay(s, slaves, id, lw); var j := 2 * (k - s);
      r[j] == SlaveEmpty(k, IdAfter(id, j)) && r[j + 1] == SlaveCopy(k, IdAfter(id, j + 1), lw)
    decreases k - s
  {
    if k > s {
      var j := 2 * (k - s);
      SlaveReplayAt(s + 1, slaves, IdAfter(id, 2), lw, k);
      IdAfterAdd(id, 2, j - 2);
      IdAfterAdd(id, 2, j - 1);
    }
  }

  /** The calls GOODBYE issues for a last will `lw` (none when it is 0). */
  function LastWillCalls(lw: byte, env: Env, id: uint32): (r: seq<Call>)
    ensures lw == 0 <==> r == []
    ensures lw != 0 ==> r[0] == LastWillCopy(id, lw)
  {
    if lw == 0 then []
    else [LastWillCopy(id, lw)] + (if env.daisyMaster then SlaveReplay(1, env.slaves as nat, IdAfter(id, 1), lw) else [])
  }

  /** Every last-will call draws exactly one id. */
  function LastWillIds(lw: byte, env: Env): (n: nat)
    ensures n == |LastWillCalls(lw, env, 0)|
  {
    if lw == 0 then 0 else 1 + (if env.daisyMaster then 2 * env.slaves as nat else 0)
  }

  /** lc_handlepacket applied to a slot. */
  function PacketStep(d: Dialect, c: Conn, h: Header, data: seq<byte>, room: nat, id: uint32): (s: Step)
    requires ConnOk(c)
    ensures ConnOk(s.conn) && s.conn.input == c.input && s.conn.active == c.active
  {
    var o := PacketOutcome(d, c.initialized, h, data, id);
    Step(Settled(c, o, room), o.calls, o.ids)
  }

  /** lc_handletype's effect on a slot; `b` is the input handed to it (the
      slot's whole input in the loop, a bare GOODBYE preamble on timeout). */
  function TypeStep(d: Dialect, c: Conn, b: seq<byte>, env: Env, room: nat, id: uint32): (s: Step)
    requires |b| >= PreambleSize && ConnOk(c)
    ensures ConnOk(s.conn) && s.conn.input == c.input
  {
    if !PreambleOk(b) then Step(c, [], 0)
    else if b[3] == TypeHello then
      Step(SendConn(c.(initialized := true), Preamble(TypeHello) + env.hello, room), [], 0)
    else if b[3] == TypeGoodbye then
      Step(Closed(c, d == Acked, b, room), LastWillCalls(c.lastwill, env, id), LastWillIds(c.lastwill, env))
    else if b[3] == TypePing then Step(c.(lastPing := env.millis), [], 0)
    else if b[3] == TypeStd && |b| >= StdHead && |b| >= PacketLen(b) then
      PacketStep(d, c, StdHeader(b), b[StdHead..PacketLen(b)], room, id)
    else Step(c, [], 0)
  }

  /** HELLO marks the client initialized and answers with a HELLO preamble
      and the payload; nothing is dispatched. */
  lemma HelloInitializes(d: Dialect, c: Conn, rest: seq<byte>, env: Env, room: nat, id: uint32)
    requires ConnOk(c)
    ensures var s := TypeStep(d, c, Preamble(TypeHello) + rest, env, room, id);
      s.conn == SendConn(c.(initialized := true), Preamble(TypeHello) + env.hello, room) &&
      s.conn.initialized && s.calls == [] && s.ids == 0
  {
    var b := Preamble(TypeHello) + rest;
    assert b[..PreambleSize] == Preamble(TypeHello);
    assert b[1..3] == Preamble(TypeHello)[1..3];
  }

  /** GOODBYE closes the slot and clears its last will; a nonzero last will
      first copies that queue into queue 0 and, on a daisy master, replays it
      on every slave; lowcom echoes the input back, lowtcp sends nothing. */
  lemma GoodbyeClosesSlot(d: Dialect, c: Conn, rest: seq<byte>, env: Env, room: nat, id: uint32)
    requires ConnOk(c)
    ensures var b := Preamble(TypeGoodbye) + rest; var s := TypeStep(d, c, b, env, room, id);
      !s.conn.active && s.conn.lastwill == 0 && s.conn.initialized == c.initialized &&
      (c.lastwill != 0 <==> s.calls != []) &&
      (c.lastwill != 0 ==> s.calls[0] == LastWillCopy(id, c.lastwill)) &&
      (c.lastwill != 0 && env.daisyMaster ==> |s.calls| == 1 + 2 * env.slaves as nat) &&
      s.ids == |s.calls| &&
      (d == Plain ==> s.conn.wire == c.wire && s.conn.output == c.output && s.conn.errs == c.errs) &&
      (d == Acked ==> s.conn == SendConn(c.(lastwill := 0), b, room).(active := false))
  {
    var b := Preamble(TypeGoodbye) + rest;
    assert b[..PreambleSize] == Preamble(TypeGoodbye);
    assert b[1..3] == Preamble(TypeGoodbye)[1..3];
    assert LastWillIds(c.lastwill, env) == |LastWillCalls(c.lastwill, env, id)|;
  }

  /** A PING refreshes the slot's ping time and nothing else. */
  lemma PingRefreshes(d: Dialect, c: Conn, rest: seq<byte>, env: Env, room: nat, id: uint32)
    requires ConnOk(c)
    ensures TypeStep(d, c, Preamble(TypePing) + rest, env, room, id) == Step(c.(lastPing := env.millis), [], 0)
  {
    var b := Preamble(TypePing) + rest;
    assert b[..PreambleSize] == Preamble(TypePing);
    assert b[1..3] == Preamble(TypePing)[1..3];
  }

  /** lowcom ignores every STD packet of a client that has not said HELLO:
      one message error, no call, no reply, no id. */
  lemma UninitializedRejected(c: Conn, h: Header, payload: seq<byte>, rest: seq<byte>, env: Env, room: nat, id: uint32)
    requires ConnOk(c) && !c.initialized && |payload| == h.length
    ensures var s := TypeStep(Acked, c, StdPacket(h, payload) + rest, env, room, id);
      s == Step(c.(errs := c.errs + [BadMessage]), [], 0)
  {
    ConsumeStdPacket(h, payload, rest);
  }

  /** One pass of the handle phase over a slot. */
  function SlotStep(d: Dialect, c: Conn, env: Env, room: nat, id: uint32): (s: Step)
    requires ConnOk(c)
    ensures ConnOk(s.conn)
    ensures s.conn.input == if c.active then InputStep(c.input) else c.input
  {
    if !c.active || c.input == [] then Step(c, [], 0)
    else if c.input[0] != Magic1 then Step(c.(input := c.input[SyncSkip(c.input)..]), [], 0)
    else if |c.input| < PreambleSize then Step(c, [], 0)
    else
      var s := TypeStep(d, c, c.input, env, room, id);
      Step(s.conn.(input := c.input[Consume(c.input)..]), s.calls, s.ids)
  }

  /** The abstract state of a service: its slots, the external calls issued so
      far, the id counter, and the service-wide ping time and client count. */
  datatype Svc = Svc(conns: seq<Conn>, calls: seq<Call>, nextId: uint32, lastPing: int, clients: nat)

  predicate SvcOk(s: Svc)
  {
    |s.conns| == LtcSize && forall j :: 0 <= j < |s.conns| ==> ConnOk(s.conns[j])
  }

  /** Record one slot's step in the service state. */
  function Apply(s: Svc, k: nat, st: Step): (r: Svc)
    requires k < |s.conns|
  {
    s.(conns := s.conns[k := st.conn], calls := s.calls + st.calls, nextId := IdAfter(s.nextId, st.ids))
  }

  /** A service state built slot by slot is the one Apply describes. */
  lemma Applied(s0: Svc, k: nat, st: Step, s1: Svc)
    requires k < |s0.conns| == |s1.conns|
    requires s1.conns[k] == st.conn && forall j :: 0 <= j < |s0.conns| && j != k ==> s1.conns[j] == s0.conns[j]
    requires s1.calls == s0.calls + st.calls && s1.nextId == IdAfter(s0.nextId, st.ids)
    requires s1.lastPing == s0.lastPing && s1.clients == s0.clients
    ensures s1 == Apply(s0, k, st)
  {
    assert s1.conns == s0.conns[k := st.conn];
  }

  /** The read phase for one slot: only an active slot with pending bytes reads. */
  function ReadSlot(c: Conn, avail: seq<byte>): (r: Conn)
    requires ConnOk(c)
    ensures ConnOk(r) && r.active == c.active
  {
    if c.active && |avail| > 0 then ReadConn(c, avail) else c
  }

  /** The read loop over slots k.. of the service loop. */
  function ReadPhase(s: Svc, k: nat, avail: seq<seq<byte>>): (r: Svc)
    requires SvcOk(s) && |avail| == LtcSize
    ensures SvcOk(r)
    decreases LtcSize - k
  {
    if k >= LtcSize then s
    else ReadPhase(s.(conns := s.conns[k := ReadSlot(s.conns[k], avail[k])]), k + 1, avail)
  }

  /** The handle loop over slots k.. of the service loop. */
  function HandlePhase(d: Dialect, s: Svc, k: nat, env: Env, rooms: seq<nat>): (r: Svc)
    requires SvcOk(s) && |rooms| == LtcSize
    ensures SvcOk(r)
    decreases LtcSize - k
  {
    if k >= LtcSize then s
    else HandlePhase(d, Apply(s, k, SlotStep(d, s.conns[k], env, rooms[k], s.nextId)), k + 1, env, rooms)
  }

  /** lowcom_loop / lowtcp_loop: all reads first, then one packet per slot. */
  function LoopStep(d: Dialect, s: Svc, avail: seq<seq<byte>>, env: Env, rooms: seq<nat>): (r: Svc)
    requires SvcOk(s) && |avail| == LtcSize && |rooms| == LtcSize
    ensures SvcOk(r)
  {
    HandlePhase(d, ReadPhase(s, 0, avail), 0, env, rooms)
  }

  lemma {:induction false} ReadPhaseSlot(s: Svc, k: nat, avail: seq<seq<byte>>, j: nat)
    requires SvcOk(s) && |avail| == LtcSize && j < LtcSize
    ensures ReadPhase(s, k, avail).conns[j] == if j >= k then ReadSlot(s.conns[j], avail[j]) else s.conns[j]
    ensures ReadPhase(s, k, avail).calls == s.calls && ReadPhase(s, k, avail).nextId == s.nextId
    decreases LtcSize - k
  {
    if k < LtcSize {
      ReadPhaseSlot(s.(conns := s.conns[k := ReadSlot(s.conns[k], avail[k])]), k + 1, avail, j);
    }
  }

  lemma {:induction false} HandlePhaseSlot(d: Dialect, s: Svc, k: nat, env: Env, rooms: seq<nat>, j: nat)
    requires SvcOk(s) && |rooms| == LtcSize && j < LtcSize
    ensures var r := HandlePhase(d, s, k, env, rooms);
      r.conns[j].input == (if j >= k && s.conns[j].active then InputStep(s.conns[j].input) else s.conns[j].input)
    decreases LtcSize - k
  {
    if k < LtcSize {
      var st := SlotStep(d, s.conns[k], env, rooms[k], s.nextId);
      ApplySlotStep(d, s, k, env, rooms[k], j);
      HandlePhaseSlot(d, Apply(s, k, st), k + 1, env, rooms, j);
    }
  }

  /** One slot's handling step touches only that slot's input. */
  lemma ApplySlotStep(d: Dialect, s: Svc, k: nat, env: Env, room: nat, j: nat)
    requires SvcOk(s) && k < LtcSize && j < LtcSize
    ensures var s1 := Apply(s, k, SlotStep(d, s.conns[k], env, room, s.nextId));
      SvcOk(s1) && (j != k ==> s1.conns[j] == s.conns[j]) &&
      (j == k ==> s1.conns[j].input == if s.conns[k].active then InputStep(s.conns[k].input) else s.conns[k].input)
  {
  }

  lemma {:induction false} HandlePhaseCalls(d: Dialect, s: Svc, k: nat, env: Env, rooms: seq<nat>)
    requires SvcOk(s) && |rooms| == LtcSize
    ensures s.calls <= HandlePhase(d, s, k, env, rooms).calls
    decreases LtcSize - k
  {
    if k < LtcSize {
      var st := SlotStep(d, s.conns[k], env, rooms[k], s.nextId);
      var s1 := Apply(s, k, st);
      HandlePhaseCalls(d, s1, k + 1, env, rooms);
      assert s.calls <= s1.calls;
    }
  }

  /** What the service loop does to each slot's input: an active slot reads
      (an arena that was full is dropped first), then resyncs or consumes one
      packet; an inactive slot is left alone; the input never exceeds the
      arena; calls already issued are kept and new ones are appended. */
  lemma LoopInputs(d: Dialect, s: Svc, avail: seq<seq<byte>>, env: Env, rooms: seq<nat>, j: nat)
    requires SvcOk(s) && |avail| == LtcSize && |rooms| == LtcSize && j < LtcSize
    ensures var r := LoopStep(d, s, avail, env, rooms); var c := s.conns[j];
      r.conns[j].input == (if c.active then InputStep(ReadSlot(c, avail[j]).input) else c.input) &&
      |r.conns[j].input| <= ISize &&
      s.calls <= r.calls
  {
    var m := ReadPhase(s, 0, avail);
    ReadPhaseSlot(s, 0, avail, j);
    HandlePhaseSlot(d, m, 0, env, rooms, j);
    HandlePhaseCalls(d, m, 0, env, rooms);
  }

  /** The first inactive slot, or |cs| when every slot is active. */
  function FirstFree(cs: seq<Conn>): (r: nat)
    ensures r <= |cs| && (r < |cs| ==> !cs[r].active)
    ensures forall j :: 0 <= j < r ==> cs[j].active
  {
    if cs == [] || !cs[0].active then 0 else 1 + FirstFree(cs[1..])
  }

  lemma {:induction false} FirstFreeIs(cs: seq<Conn>, i: nat)
    requires i <= |cs| && (i < |cs| ==> !cs[i].active)
    requires forall j :: 0 <= j < i ==> cs[j].active
    ensures FirstFree(cs) == i
  {
    if cs != [] && cs[0].active {
      FirstFreeIs(cs[1..], i - 1);
    }
  }

  /** A freshly allocated slot: cleared, active, pinged at `now`. */
  function Opened(c: Conn, now: int): Conn
  {
    Conn([], [], true, false, 0, now, [], c.errs)
  }

  /** Slot allocation of the service update. */
  function AcceptStep(s: Svc, now: int): (r: Svc)
    requires SvcOk(s)
    ensures SvcOk(r)
  {
    var f := FirstFree(s.conns);
    if f < |s.conns| then s.(conns := s.conns[f := Opened(s.conns[f], now)]) else s
  }

  /** A new client takes the first inactive slot with cleared state, and no
      other slot changes; with no slot free nothing changes at all. */
  lemma AcceptFirstFree(s: Svc, now: int)
    requires SvcOk(s)
    ensures var r := AcceptStep(s, now); var f := FirstFree(s.conns);
      (f == |s.conns| <==> forall j :: 0 <= j < |s.conns| ==> s.conns[j].active) &&
      (f == |s.conns| ==> r == s) &&
      (f < |s.conns| ==>
        (r.conns[f].active && r.conns[f].input == [] && r.conns[f].output == [] &&
         !r.conns[f].initialized && r.conns[f].lastwill == 0 && r.conns[f].lastPing == now &&
         forall j :: 0 <= j < |s.conns| && j != f ==> r.conns[j] == s.conns[j]))
  {
  }

  /** The timeout test of the service update (timesince taken as the plain
      difference of the two millis() readings). */
  predicate Stale(c: Conn, millis: int, connected: bool)
  {
    c.active && (millis - c.lastPing > PingTimeout || !connected)
  }

  /** The timeout test and GOODBYE for slot k: a stale slot is handled as if
      it had sent a GOODBYE preamble. */
  function ExpireSlot(d: Dialect, s: Svc, k: nat, connected: bool, env: Env, room: nat): (r: Svc)
    requires SvcOk(s) && k < LtcSize
    ensures SvcOk(r)
  {
    var c := s.conns[k];
    if Stale(c, env.millis, connected)
    then Apply(s, k, TypeStep(d, c, Preamble(TypeGoodbye), env, room, s.nextId))
    else s
  }

  /** The timeout loop over slots k... */
  function ExpirePhase(d: Dialect, s: Svc, k: nat, connected: seq<bool>, env: Env, rooms: seq<nat>): (r: Svc)
    requires SvcOk(s) && |connected| == LtcSize && |rooms| == LtcSize
    ensures SvcOk(r)
    decreases LtcSize - k
  {
    if k >= LtcSize then s
    else ExpirePhase(d, ExpireSlot(d, s, k, connected[k], env, rooms[k]), k + 1, connected, env, rooms)
  }

  /** After the timeout loop every slot that was stale is inactive with its
      last will cleared, and every other slot is unchanged. */
  lemma {:induction false} ExpireCloses(d: Dialect, s: Svc, k: nat, connected: seq<bool>, env: Env, rooms: seq<nat>, j: nat)
    requires SvcOk(s) && |connected| == LtcSize && |rooms| == LtcSize && j < LtcSize
    ensures var r := ExpirePhase(d, s, k, connected, env, rooms);
      (j >= k && Stale(s.conns[j], env.millis, connected[j]) ==> !r.conns[j].active && r.conns[j].lastwill == 0) &&
      (j < k || !Stale(s.conns[j], env.millis, connected[j]) ==> r.conns[j] == s.conns[j])
    decreases LtcSize - k
  {
    if k < LtcSize {
      var c := s.conns[k];
      var s1 := ExpireSlot(d, s, k, connected[k], env, rooms[k]);
      ExpireCloses(d, s1, k + 1, connected, env, rooms, j);
      if j == k && Stale(c, env.millis, connected[k]) {
        GoodbyeClosesSlot(d, c, [], env, rooms[k], s.nextId);
        assert Preamble(TypeGoodbye) + [] == Preamble(TypeGoodbye);
      }
    }
  }

  /** A PING preamble sent directly on the slot's socket, when the socket has
      room for it; O is bypassed. */
  function Pinged(c: Conn, room: nat): (r: Conn)
    requires ConnOk(c)
    ensures ConnOk(r)
  {
    if room >= PreambleSize then c.(wire := c.wire + Preamble(TypePing)) else c
  }

  /** The ping of slot k: an active slot is counted and pinged. */
  function PingSlot(s: Svc, k: nat, room: nat): (r: Svc)
    requires SvcOk(s) && k < LtcSize
    ensures SvcOk(r)
  {
    var c := s.conns[k];
    if !c.active then s else s.(conns := s.conns[k := Pinged(c, room)], clients := s.clients + 1)
  }

  /** The ping loop over slots k... */
  function PingPhase(s: Svc, k: nat, rooms: seq<nat>): (r: Svc)
    requires SvcOk(s) && |rooms| == LtcSize
    ensures SvcOk(r)
    decreases LtcSize - k
  {
    if k >= LtcSize then s else PingPhase(PingSlot(s, k, rooms[k]), k + 1, rooms)
  }

  /** The number of active slots among cs[k..]. */
  function ActiveFrom(cs: seq<Conn>, k: nat): nat
    decreases |cs| - k
  {
    if k >= |cs| then 0 else (if cs[k].active then 1 else 0) + ActiveFrom(cs, k + 1)
  }

  /** The service-wide ping of the service update. */
  function PingStep(s: Svc, now: int, rooms: seq<nat>): (r: Svc)
    requires SvcOk(s) && |rooms| == LtcSize
    ensures SvcOk(r)
  {
    if now - s.lastPing > PingTimeout then PingPhase(s.(lastPing := now, clients := 0), 0, rooms) else s
  }

  lemma {:induction false} PingPhaseCounts(s: Svc, k: nat, rooms: seq<nat>)
    requires SvcOk(s) && |rooms| == LtcSize
    ensures PingPhase(s, k, rooms).clients == s.clients + ActiveFrom(s.conns, k)
    ensures forall j :: 0 <= j < LtcSize ==> PingPhase(s, k, rooms).conns[j].active == s.conns[j].active
    decreases LtcSize - k
  {
    if k < LtcSize {
      var s1 := PingSlot(s, k, rooms[k]);
      PingPhaseCounts(s1, k + 1, rooms);
      ActiveFromSame(s.conns, s1.conns, k + 1);
    }
  }

  lemma {:induction false} ActiveFromSame(a: seq<Conn>, b: seq<Conn>, k: nat)
    requires |a| == |b| && forall j :: 0 <= j < |a| ==> a[j].active == b[j].active
    ensures ActiveFrom(a, k) == ActiveFrom(b, k)
    decreases |a| - k
  {
    if k < |a| {
      ActiveFromSame(a, b, k + 1);
    }
  }

  /** When the ping is due, the client count becomes the number of active
      slots and no slot is opened or closed. */
  lemma PingCountsClients(s: Svc, now: int, rooms: seq<nat>)
    requires SvcOk(s) && |rooms| == LtcSize
    ensures var r := PingStep(s, now, rooms);
      (now - s.lastPing > PingTimeout ==> r.clients == ActiveFrom(s.conns, 0) && r.lastPing == now) &&
      (now - s.lastPing <= PingTimeout ==> r == s) &&
      forall j :: 0 <= j < LtcSize ==> r.conns[j].active == s.conns[j].active
  {
    if now - s.lastPing > PingTimeout {
      PingPhaseCounts(s.(lastPing := now, clients := 0), 0, rooms);
    }
  }

  /** The service update: allocate a slot for a waiting client, close stale
      slots, then ping. */
  function UpdateStep(d: Dialect, s: Svc, hasClient: bool, now: int, connected: seq<bool>, env: Env, rooms: seq<nat>): (r: Svc)
    requires SvcOk(s) && |connected| == LtcSize && |rooms| == LtcSize
    ensures SvcOk(r)
  {
    var s1 := if hasClient then AcceptStep(s, now) else s;
    PingStep(ExpirePhase(d, s1, 0, connected, env, rooms), now, rooms)
  }

  /** One client slot of the service. */
  class Client {
    const I: array<byte>
    const O: array<byte>
    var Ilen: nat
    var Olen: nat
    var active: bool
    var initialized: bool
    var lastwill: byte
    var lastPing: int
    /** Bytes this slot's socket accepted for sending. */
    var wire: seq<byte>
    /** Errors reported for this slot. */
    var errs: seq<Err>

    ghost predicate Valid()
      reads this
    {
      I.Length == ISize && O.Length == OSize && Ilen <= ISize && Olen <= OSize
    }

    function State(): (c: Conn)
      reads this, I, O
      requires Valid()
      ensures ConnOk(c)
    {
      Conn(I[..Ilen], O[..Olen], active, initialized, lastwill, lastPing, wire, errs)
    }

    /** The zero-initialised slot that the service starts with, inactive. */
    constructor ()
      ensures Valid() && fresh(I) && fresh(O)
      ensures State() == Conn([], [], false, false, 0, 0, [], [])
    {
      I := new byte[ISize];
      O := new byte[OSize];
      Ilen, Olen := 0, 0;
      active, initialized := false, false;
      lastwill, lastPing := 0, 0;
      wire, errs := [], [];
    }

    /** Slot allocation: the slot is cleared, takes the new socket, becomes
        active and starts its ping clock at `now`. */
    method Open(now: int)
      requires Valid()
      modifies this
      ensures Valid()
      ensures State() == Conn([], [], true, false, 0, now, [], old(errs))
    {
      Ilen, Olen := 0, 0;
      active, initialized := true, false;
      lastwill, lastPing := 0, now;
      wire := [];
    }

    /** The read phase of lowcom_loop for this slot. */
    method Read(avail: seq<byte>)
      requires Valid()
      modifies this, I
      ensures Valid()
      ensures State() == ReadConn(old(State()), avail)
    {
      ghost var c := State();
      if Ilen == ISize {
        errs := errs + [IBufFull];
        Ilen := 0;
      }
      var n := if |avail| < ISize - Ilen then |avail| else ISize - Ilen;
      ghost var kept := I[..Ilen];
      CopyIn(I, Ilen, avail[..n]);
      assert I[..Ilen + n] == kept + avail[..n];
      Ilen := Ilen + n;
    }

    /** lc_send (to the slot's own socket); `room` is what the socket's write
        accepts. */
    method Send(data: seq<byte>, room: nat)
      requires Valid()
      modifies this, O
      ensures Valid()
      ensures State() == SendConn(old(State()), data, room)
    {
      var i := Accepted(Olen, |data|, room);
      wire := wire + data[..i];
      if i != |data| {
        if |data| - i > OSize - Olen {
          errs := errs + [OBufFull];
          return;
        }
        ghost var o := O[..Olen];
        CopyIn(O, Olen, data[i..]);
        assert O[..Olen + (|data| - i)] == o + data[i..];
        Olen := Olen + (|data| - i);
      }
    }

    /** The HELLO answer: the client becomes initialized and is sent a HELLO
        preamble followed by `payload`. */
    method Greet(payload: seq<byte>, room: nat)
      requires Valid()
      modifies this, O
      ensures Valid()
      ensures State() == SendConn(old(State()).(initialized := true), Preamble(TypeHello) + payload, room)
    {
      initialized := true;
      Send(Preamble(TypeHello) + payload, room);
    }

    /** The slot side of a GOODBYE. */
    method Close(echo: bool, b: seq<byte>, room: nat)
      requires Valid()
      modifies this, O
      ensures Valid()
      ensures State() == Closed(old(State()), echo, b, room)
    {
      lastwill := 0;
      if echo {
        Send(b, room);
      }
      active := false;
    }

    /** The slot side of one STD packet's outcome. */
    method Settle(o: Outcome, room: nat)
      requires Valid()
      modifies this, O
      ensures Valid()
      ensures State() == Settled(old(State()), o, room)
    {
      if o.error {
        errs := errs + [BadMessage];
      }
      if o.lastwill.Some? {
        lastwill := o.lastwill.value;
      }
      if o.reply != [] {
        Send(o.reply, room);
      }
    }

    /** The resync of lowcom_loop: scan from index 1 for magic1 and drop
        everything before it. */
    method Sync()
      requires Valid() && Ilen > 0 && I[0] != Magic1
      modifies this, I
      ensures Valid()
      ensures State() == old(State()).(input := old(State()).input[SyncSkip(old(State()).input)..])
    {
      ghost var b := I[..Ilen];
      var index := 1;
      while index < Ilen && I[index] != Magic1
        invariant 1 <= index <= Ilen
        invariant forall k :: 1 <= k < index ==> I[k] != Magic1
      {
        index := index + 1;
      }
      assert forall k :: 0 <= k < index - 1 ==> b[1..][k] == I[k + 1];
      IndexOfUnique(b[1..], Magic1, index - 1);
      if index < Ilen {
        ShiftDown(I, index, Ilen);
      }
      Ilen := Ilen - index;
    }

    /** Remove the first `k` input bytes and close the gap (memmove). */
    method Drop(k: nat)
      requires Valid() && k <= Ilen
      modifies this, I
      ensures Valid()
      ensures State() == old(State()).(input := old(State()).input[k..])
    {
      ShiftDown(I, k, Ilen);
      Ilen := Ilen - k;
    }

    /** lc_handlepacket on this slot, drawing ids from `id` on; returns the
        external calls and how many ids they drew. */
    method HandlePacket(d: Dialect, h: Header, data: seq<byte>, room: nat, id: uint32) returns (calls: seq<Call>, ids: nat)
      requires Valid()
      modifies this, O
      ensures Valid()
      ensures Step(State(), calls, ids) == PacketStep(d, old(State()), h, data, room, id)
    {
      var o := PacketOutcome(d, initialized, h, data, id);
      Settle(o, room);
      calls, ids := o.calls, o.ids;
    }

    /** A GOODBYE on this slot (received, or made up on timeout). */
    method Goodbye(d: Dialect, b: seq<byte>, env: Env, room: nat, id: uint32) returns (calls: seq<Call>, ids: nat)
      requires Valid()
      modifies this, O
      ensures Valid()
      ensures State() == Closed(old(State()), d == Acked, b, room)
      ensures calls == LastWillCalls(old(lastwill), env, id) && ids == LastWillIds(old(lastwill), env)
    {
      var lw := lastwill;
      Close(d == Acked, b, room);
      calls, ids := LastWillReplay(lw, env, id);
    }

    /** lc_handletype on input `b`; returns the bytes consumed. */
    method HandleType(d: Dialect, b: seq<byte>, env: Env, room: nat, id: uint32) returns (consume: nat, calls: seq<Call>, ids: nat)
      requires Valid() && |b| >= PreambleSize
      modifies this, O
      ensures Valid() && consume == Consume(b)
      ensures Step(State(), calls, ids) == TypeStep(d, old(State()), b, env, room, id)
    {
      calls, ids := [], 0;
      if !PreambleOk(b) {
        return 1, calls, ids;
      }
      if b[3] == TypeHello {
        Greet(env.hello, room);
        return PreambleSize, calls, ids;
      }
      if b[3] == TypeGoodbye {
        calls, ids := Goodbye(d, b, env, room, id);
        return PreambleSize, calls, ids;
      }
      if b[3] == TypePing {
        lastPing := env.millis;
        return PreambleSize, calls, ids;
      }
      if b[3] == TypeStd {
        if |b| < StdHead {
          return 0, calls, ids;
        }
        var h := UnpackHeader(b[PreambleSize..]);
        var elen := StdHead + h.length;
        if |b| < elen {
          return 0, calls, ids;
        }
        calls, ids := HandlePacket(d, h, b[StdHead..elen], room, id);
        return elen, calls, ids;
      }
      return 1, calls, ids;
    }

    /** The handle phase of the service loop for this slot. */
    method HandleSlot(d: Dialect, env: Env, room: nat, id: uint32) returns (calls: seq<Call>, ids: nat)
      requires Valid()
      modifies this, I, O
      ensures Valid()
      ensures Step(State(), calls, ids) == SlotStep(d, old(State()), env, room, id)
    {
      calls, ids := [], 0;
      if active && Ilen > 0 {
        if I[0] != Magic1 {
          Sync();
        } else if Ilen >= PreambleSize {
          calls, ids := HandleFrame(d, env, room, id);
        }
      }
    }

    /** A slot whose input starts with a whole preamble: the frame is
        handled and the consumed bytes dropped. */
    method HandleFrame(d: Dialect, env: Env, room: nat, id: uint32) returns (calls: seq<Call>, ids: nat)
      requires Valid() && active && Ilen >= PreambleSize && I[0] == Magic1
      modifies this, I, O
      ensures Valid()
      ensures var c := old(State()); var s := TypeStep(d, c, c.input, env, room, id);
        Step(State(), calls, ids) == Step(s.conn.(input := c.input[Consume(c.input)..]), s.calls, s.ids)
    {
      var consume;
      consume, calls, ids := HandleType(d, I[..Ilen], env, room, id);
      assert |State().input| == Ilen;
      if consume > 0 {
        Drop(consume);
      }
    }

    /** The ping of the service update on this slot. */
    method Ping(room: nat)
      requires Valid()
      modifies this
      ensures Valid()
      ensures State() == Pinged(old(State()), room)
    {
      if room >= PreambleSize {
        wire := wire + Preamble(TypePing);
      }
    }
  }

  /** The GOODBYE last-will replay, with its loop over the daisy slaves;
      ids are drawn from `id` on. */
  method LastWillReplay(lw: byte, env: Env, id: uint32) returns (calls: seq<Call>, ids: nat)
    ensures calls == LastWillCalls(lw, env, id) && ids == LastWillIds(lw, env)
  {
    if lw == 0 {
      return [], 0;
    }
    calls := [LastWillCopy(id, lw)];
    ids := 1;
    if env.daisyMaster {
      var next := IdAfter(id, 1);
      ghost var replay := SlaveReplay(1, env.slaves as nat, next, lw);
      var i: nat := 1;
      while i <= env.slaves as nat
        invariant 1 <= i <= env.slaves as nat + 1
        invariant ids == 2 * i - 1 && next == IdAfter(id, ids)
        invariant calls + SlaveReplay(i, env.slaves as nat, next, lw) == [LastWillCopy(id, lw)] + replay
        decreases env.slaves as nat + 1 - i
      {
        var step := [SlaveEmpty(i, next), SlaveCopy(i, IdAfter(next, 1), lw)];
        ConcatAssoc(calls, step, SlaveReplay(i + 1, env.slaves as nat, IdAfter(next, 2), lw));
        IdAfterAdd(id, ids, 2);
        calls := calls + step;
        ids := ids + 2;
        next := IdAfter(next, 2);
        i := i + 1;
      }
    }
  }

  /** The service with its two client slots. */
  class Service {
    const dialect: Dialect
    const slot0: Client
    const slot1: Client
    var calls: seq<Call>
    var nextId: uint32
    var lastPing: int
    var clients: nat

    /** The client in slot `ci`. */
    function Slot(ci: nat): Client
    {
      if ci == 0 then slot0 else slot1
    }

    ghost function Repr(): set<object>
    {
      {slot0, slot0.I, slot0.O, slot1, slot1.I, slot1.O}
    }

    ghost predicate Valid()
      reads this, Repr()
    {
      slot0 != slot1 && slot0.I != slot1.I && slot0.O != slot1.O && slot0.Valid() && slot1.Valid()
    }

    function Abs(): (s: Svc)
      reads this, Repr()
      requires Valid()
      ensures SvcOk(s)
      ensures forall j :: 0 <= j < LtcSize ==> s.conns[j] == Slot(j).State()
    {
      Svc([slot0.State(), slot1.State()], calls, nextId, lastPing, clients)
    }

    /** The service at start-up: both slots inactive. */
    constructor (d: Dialect)
      ensures Valid() && dialect == d
      ensures var idle := Conn([], [], false, false, 0, 0, [], []);
        Abs() == Svc([idle, idle], [], 0, 0, 0)
    {
      dialect := d;
      slot0 := new Client();
      slot1 := new Client();
      calls, nextId, lastPing, clients := [], 0, 0, 0;
    }

    /** The read phase for slot `ci`. */
    method ReadOne(ci: nat, avail: seq<byte>)
      requires Valid() && ci < LtcSize
      modifies Slot(ci), Slot(ci).I
      ensures Valid()
      ensures Abs() == old(Abs()).(conns := old(Abs()).conns[ci := ReadSlot(old(Abs()).conns[ci], avail)])
    {
      var c := Slot(ci);
      if c.active && |avail| > 0 {
        c.Read(avail);
      }
    }

    /** The handle phase for slot `ci`. */
    method HandleOne(ci: nat, env: Env, room: nat)
      requires Valid() && ci < LtcSize
      modifies this, Slot(ci), Slot(ci).I, Slot(ci).O
      ensures Valid()
      ensures Abs() == Apply(old(Abs()), ci, SlotStep(dialect, old(Abs()).conns[ci], env, room, old(nextId)))
    {
      ghost var s0 := Abs();
      var cs, n := Slot(ci).HandleSlot(dialect, env, room, nextId);
      calls, nextId := calls + cs, IdAfter(nextId, n);
      Applied(s0, ci, Step(Slot(ci).State(), cs, n), Abs());
    }

    /** The read loop of the service loop. */
    method ReadAll(avail: seq<seq<byte>>)
      requires Valid() && |avail| == LtcSize
      modifies Repr()
      ensures Valid()
      ensures Abs() == ReadPhase(old(Abs()), 0, avail)
    {
      ghost var goal := ReadPhase(Abs(), 0, avail);
      for ci := 0 to LtcSize
        invariant Valid()
        invariant ReadPhase(Abs(), ci, avail) == goal
      {
        ReadOne(ci, avail[ci]);
      }
    }

    /** The handle loop of the service loop. */
    method HandleAll(env: Env, rooms: seq<nat>)
      requires Valid() && |rooms| == LtcSize
      modifies this, Repr()
      ensures Valid()
      ensures Abs() == HandlePhase(dialect, old(Abs()), 0, env, rooms)
    {
      ghost var goal := HandlePhase(dialect, Abs(), 0, env, rooms);
      for ci := 0 to LtcSize
        invariant Valid()
        invariant HandlePhase(dialect, Abs(), ci, env, rooms) == goal
      {
        HandleOne(ci, env, rooms[ci]);
      }
    }

    /** lowcom_loop / lowtcp_loop. `avail` holds the bytes each socket has
        ready, `rooms` what each socket's write accepts. */
    method Loop(avail: seq<seq<byte>>, env: Env, rooms: seq<nat>)
      requires Valid() && |avail| == LtcSize && |rooms| == LtcSize
      modifies this, Repr()
      ensures Valid()
      ensures Abs() == LoopStep(dialect, old(Abs()), avail, env, rooms)
    {
      ReadAll(avail);
      HandleAll(env, rooms);
    }

    /** Slot allocation of the service update; returns the slot taken, or
        LtcSize when none is free. */
    method Accept(now: int) returns (slot: nat)
      requires Valid()
      modifies Repr()
      ensures Valid() && slot == FirstFree(old(Abs()).conns)
      ensures Abs() == AcceptStep(old(Abs()), now)
    {
      slot := 0;
      while slot < LtcSize && Slot(slot).active
        invariant slot <= LtcSize
        invariant forall j :: 0 <= j < slot ==> Slot(j).active
      {
        slot := slot + 1;
      }
      FirstFreeIs(Abs().conns, slot);
      if slot < LtcSize {
        Slot(slot).Open(now);
      }
    }

    /** The GOODBYE preamble handed to lc_handletype for a timed-out slot. */
    method Expel(ci: nat, env: Env, room: nat)
      requires Valid() && ci < LtcSize
      modifies this, Slot(ci), Slot(ci).O
      ensures Valid()
      ensures Abs() == Apply(old(Abs()), ci, TypeStep(dialect, old(Abs()).conns[ci], Preamble(TypeGoodbye), env, room, old(nextId)))
    {
      ghost var s0 := Abs();
      var _, cs, n := Slot(ci).HandleType(dialect, Preamble(TypeGoodbye), env, room, nextId);
      calls, nextId := calls + cs, IdAfter(nextId, n);
      Applied(s0, ci, Step(Slot(ci).State(), cs, n), Abs());
    }

    /** The timeout test for slot `ci`. */
    method ExpireOne(ci: nat, connected: bool, env: Env, room: nat)
      requires Valid() && ci < LtcSize
      modifies this, Slot(ci), Slot(ci).O
      ensures Valid()
      ensures Abs() == ExpireSlot(dialect, old(Abs()), ci, connected, env, room)
    {
      var c := Slot(ci);
      if c.active && (env.millis - c.lastPing > PingTimeout || !connected) {
        Expel(ci, env, room);
      }
    }

    /** The timeout loop of the service update. */
    method Expire(connected: seq<bool>, env: Env, rooms: seq<nat>)
      requires Valid() && |connected| == LtcSize && |rooms| == LtcSize
      modifies this, Repr()
      ensures Valid()
      ensures Abs() == ExpirePhase(dialect, old(Abs()), 0, connected, env, rooms)
    {
      ghost var goal := ExpirePhase(dialect, Abs(), 0, connected, env, rooms);
      for ci := 0 to LtcSize
        invariant Valid()
        invariant ExpirePhase(dialect, Abs(), ci, connected, env, rooms) == goal
      {
        ExpireOne(ci, connected[ci], env, rooms[ci]);
      }
    }

    /** The ping of slot `ci`. */
    method PingOne(ci: nat, room: nat)
      requires Valid() && ci < LtcSize
      modifies this, Slot(ci)
      ensures Valid()
      ensures Abs() == PingSlot(old(Abs()), ci, room)
    {
      var c := Slot(ci);
      if c.active {
        c.Ping(room);
        clients := clients + 1;
      }
    }

    /** The ping of the service update. */
    method Ping(now: int, rooms: seq<nat>)
      requires Valid() && |rooms| == LtcSize
      modifies this, Repr()
      ensures Valid()
      ensures Abs() == PingStep(old(Abs()), now, rooms)
    {
      if now - lastPing > PingTimeout {
        lastPing, clients := now, 0;
        ghost var goal := PingPhase(Abs(), 0, rooms);
        for ci := 0 to LtcSize
          invariant Valid()
          invariant PingPhase(Abs(), ci, rooms) == goal
        {
          PingOne(ci, rooms[ci]);
        }
      }
    }

    /** lowcom_update / lowtcp_update. */
    method Update(hasClient: bool, now: int, connected: seq<bool>, env: Env, rooms: seq<nat>)
      requires Valid() && |connected| == LtcSize && |rooms| == LtcSize
      modifies this, Repr()
      ensures Valid()
      ensures Abs() == UpdateStep(dialect, old(Abs()), hasClient, now, connected, env, rooms)
    {
      if hasClient {
        var _ := Accept(now);
      }
      Expire(connected, env, rooms);
      Ping(now, rooms);
    }
  }
}
