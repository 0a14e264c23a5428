/** The daisy-chain link: bytes arriving on the serial line collect in a
    2048-byte buffer, and the parser syncs to the start-of-packet byte,
    validates the frame

      MAGIC1 | MAGIC2 | CHECKSUM | ID0 | ID1 | OPCODE | LEN | LEN payload bytes

    and consumes it. A board that is not the chain's master passes every
    byte it skips on to the next board, unchanged. */
module Daisy {
  import opened Bytes

  const BSize: nat := 2048
  const Magic1: byte := 0xAB
  const Magic2: byte := 0x75
  const Header: nat := 7
  const CmdPing: byte := 0x0
  /** The number of opcodes; an opcode must be below it. */
  const CmdSize: byte := 1

  /** The link's configuration: the master flag and this board's two-byte address. */
  datatype Cfg = Cfg(master: bool, id0: byte, id1: byte)

  /** What a board writes out for bytes it skips: everything on a slave, nothing on the master. */
  function Forwarded(s: seq<byte>, cfg: Cfg): (r: seq<byte>)
    ensures cfg.master ==> r == []
    ensures !cfg.master ==> r == s
  {
    if cfg.master then [] else s
  }

  /** The second magic byte, a known opcode and, on a slave, this board's address. */
  predicate HeaderOk(p: seq<byte>, cfg: Cfg)
    requires |p| >= Header
  {
    p[1] == Magic2 && p[5] < CmdSize && (cfg.master || (p[3] == cfg.id0 && p[4] == cfg.id1))
  }

  function FrameLen(p: seq<byte>): (n: nat)
    requires |p| >= Header
    ensures n >= Header
  {
    Header + p[6] as nat
  }

  /** The checksum covers LEN + 1 bytes from the address on. */
  predicate ChecksumOk(p: seq<byte>)
    requires |p| >= Header && |p| >= FrameLen(p)
  {
    Sum8(p[3..4 + p[6] as nat]) == p[2]
  }

  /** A complete frame this board accepts. */
  predicate ValidFrame(f: seq<byte>, cfg: Cfg)
  {
    |f| >= Header && f[0] == Magic1 && HeaderOk(f, cfg) && |f| == FrameLen(f) && ChecksumOk(f)
  }

  /** What the parser leaves in the buffer: nothing, or the beginning of a
      frame that is still too short to judge. */
  predicate Waiting(rest: seq<byte>, cfg: Cfg)
  {
    rest == [] ||
    (rest[0] == Magic1 && (|rest| < Header || (HeaderOk(rest, cfg) && |rest| < FrameLen(rest))))
  }

  /** The outcome of parsing a buffer: the bytes left waiting, the bytes written
      out, and the frames consumed, in order. */
  datatype Result = Result(rest: seq<byte>, forwarded: seq<byte>, frames: seq<seq<byte>>)

  /** The parse of the buffered bytes `b`, as intended (an invalid start drops one byte). */
  function Parse(b: seq<byte>, cfg: Cfg): (r: Result)
    ensures |r.forwarded| + 7 * |r.frames| <= |b|
    decreases |b|, 1
  {
    if b == [] then Result([], [], [])
    else
      var i := IndexOf(b, Magic1);
      if i == |b| then Result([], Forwarded(b, cfg), [])
      else
        var r := ParseAtSop(b[i..], cfg);
        Result(r.rest, Forwarded(b[..i], cfg) + r.forwarded, r.frames)
  }

  /** The parse of a buffer whose first byte is the start-of-packet byte. */
  function ParseAtSop(p: seq<byte>, cfg: Cfg): (r: Result)
    requires p != [] && p[0] == Magic1
    ensures |r.forwarded| + 7 * |r.frames| <= |p|
    decreases |p|, 0
  {
    if |p| < Header then Result(p, [], [])
    else if !HeaderOk(p, cfg) then
      var r := Parse(p[1..], cfg);
      Result(r.rest, Forwarded(p[..1], cfg) + r.forwarded, r.frames)
    else if |p| < FrameLen(p) then Result(p, [], [])
    else if !ChecksumOk(p) then
      var r := Parse(p[1..], cfg);
      Result(r.rest, Forwarded(p[..1], cfg) + r.forwarded, r.frames)
    else
      var r := Parse(p[FrameLen(p)..], cfg);
      Result(r.rest, r.forwarded, [p[..FrameLen(p)]] + r.frames)
  }

  /** An invalid header or a bad checksum costs exactly one byte. */
  lemma ParseAtSopDrops(p: seq<byte>, cfg: Cfg)
    requires p != [] && p[0] == Magic1 && |p| >= Header
    requires !HeaderOk(p, cfg) || (|p| >= FrameLen(p) && !ChecksumOk(p))
    ensures var r := Parse(p[1..], cfg);
      ParseAtSop(p, cfg) == Result(r.rest, Forwarded(p[..1], cfg) + r.forwarded, r.frames)
  {
  }

  /** A complete valid frame is consumed whole, and nothing else is. */
  lemma ParseAtSopConsumes(p: seq<byte>, cfg: Cfg)
    requires p != [] && p[0] == Magic1 && |p| >= Header
    requires HeaderOk(p, cfg) && |p| >= FrameLen(p) && ChecksumOk(p)
    ensures var r := Parse(p[FrameLen(p)..], cfg);
      ParseAtSop(p, cfg) == Result(r.rest, r.forwarded, [p[..FrameLen(p)]] + r.frames)
  {
  }

  /** The parser only ever removes bytes from the front: what is left is a suffix. */
  lemma {:induction false} ParseRestSuffix(b: seq<byte>, cfg: Cfg)
    ensures var r := Parse(b, cfg); |r.rest| <= |b| && r.rest == b[|b| - |r.rest|..]
    decreases |b|, 1
  {
    if b != [] {
      var i := IndexOf(b, Magic1);
      if i < |b| {
        ParseAtSopRestSuffix(b[i..], cfg);
        ParseFromSop(b, cfg);
        DropSuffix(b, i, ParseAtSop(b[i..], cfg).rest);
      }
    }
  }

  lemma {:induction false} ParseAtSopRestSuffix(p: seq<byte>, cfg: Cfg)
    requires p != [] && p[0] == Magic1
    ensures var r := ParseAtSop(p, cfg); |r.rest| <= |p| && r.rest == p[|p| - |r.rest|..]
    decreases |p|, 0
  {
    if |p| >= Header {
      if !HeaderOk(p, cfg) || (|p| >= FrameLen(p) && !ChecksumOk(p)) {
        ParseAtSopDrops(p, cfg);
        ParseRestSuffix(p[1..], cfg);
        DropSuffix(p, 1, Parse(p[1..], cfg).rest);
      } else if |p| >= FrameLen(p) {
        var n := FrameLen(p);
        ParseAtSopConsumes(p, cfg);
        ParseRestSuffix(p[n..], cfg);
        DropSuffix(p, n, Parse(p[n..], cfg).rest);
      }
    }
  }

  /** Bytes before the first start-of-packet byte are passed on or dropped. */
  lemma ParseFromSop(b: seq<byte>, cfg: Cfg)
    requires b != [] && IndexOf(b, Magic1) < |b|
    ensures var i := IndexOf(b, Magic1); var r := ParseAtSop(b[i..], cfg);
      Parse(b, cfg) == Result(r.rest, Forwarded(b[..i], cfg) + r.forwarded, r.frames)
  {
  }

  /** A suffix of `p[n..]` is a suffix of `p`. */
  lemma DropSuffix(p: seq<byte>, n: nat, t: seq<byte>)
    requires n <= |p| && |t| <= |p| - n && t == p[n..][|p| - n - |t|..]
    ensures t == p[|p| - |t|..]
  {
    assert p[n..][|p| - n - |t|..] == p[|p| - |t|..];
  }

  /** The parser stops only at an empty buffer or a frame that is still incomplete,
      and every frame it consumes is valid. */
  lemma {:induction false} ParseStopsWaiting(b: seq<byte>, cfg: Cfg)
    ensures Waiting(Parse(b, cfg).rest, cfg)
    ensures forall k :: 0 <= k < |Parse(b, cfg).frames| ==> ValidFrame(Parse(b, cfg).frames[k], cfg)
    decreases |b|, 1
  {
    if b != [] {
      var i := IndexOf(b, Magic1);
      if i < |b| {
        ParseAtSopStopsWaiting(b[i..], cfg);
      }
    }
  }

  lemma {:induction false} ParseAtSopStopsWaiting(p: seq<byte>, cfg: Cfg)
    requires p != [] && p[0] == Magic1
    ensures Waiting(ParseAtSop(p, cfg).rest, cfg)
    ensures forall k :: 0 <= k < |ParseAtSop(p, cfg).frames| ==> ValidFrame(ParseAtSop(p, cfg).frames[k], cfg)
    decreases |p|, 0
  {
    if |p| >= Header {
      if !HeaderOk(p, cfg) || (|p| >= FrameLen(p) && !ChecksumOk(p)) {
        ParseAtSopDrops(p, cfg);
        ParseStopsWaiting(p[1..], cfg);
      } else if |p| >= FrameLen(p) {
        var n := FrameLen(p);
        ParseAtSopConsumes(p, cfg);
        ParseStopsWaiting(p[n..], cfg);
        FrontFrameValid(p, cfg);
        AllValidCons(p[..n], Parse(p[n..], cfg).frames, cfg);
      }
    }
  }

  /** The complete frame at the front of a buffer that passes every check is valid. */
  lemma FrontFrameValid(p: seq<byte>, cfg: Cfg)
    requires p != [] && p[0] == Magic1 && |p| >= Header
    requires HeaderOk(p, cfg) && |p| >= FrameLen(p) && ChecksumOk(p)
    ensures ValidFrame(p[..FrameLen(p)], cfg)
  {
    var f := p[..FrameLen(p)];
    assert f[6] == p[6] && f[3..4 + f[6] as nat] == p[3..4 + p[6] as nat];
  }

  lemma AllValidCons(f: seq<byte>, fs: seq<seq<byte>>, cfg: Cfg)
    requires ValidFrame(f, cfg)
    requires forall k :: 0 <= k < |fs| ==> ValidFrame(fs[k], cfg)
    ensures forall k :: 0 <= k < |[f] + fs| ==> ValidFrame(([f] + fs)[k], cfg)
  {
    forall k | 0 <= k < |[f] + fs|
      ensures ValidFrame(([f] + fs)[k], cfg)
    {
      if k > 0 {
        assert ([f] + fs)[k] == fs[k - 1];
      }
    }
  }

  /** A buffer the parser would stop at parses to itself: parsing is idempotent. */
  lemma ParseWaitingIsFixed(b: seq<byte>, cfg: Cfg)
    requires Waiting(b, cfg)
    ensures Parse(b, cfg) == Result(b, [], [])
  {
    if b != [] {
      assert IndexOf(b, Magic1) == 0;
      assert b[0..] == b;
    }
  }

  lemma ParseIdempotent(b: seq<byte>, cfg: Cfg)
    ensures var r := Parse(b, cfg); Parse(r.rest, cfg) == Result(r.rest, [], [])
  {
    ParseStopsWaiting(b, cfg);
    ParseWaitingIsFixed(Parse(b, cfg).rest, cfg);
  }

  /** A buffer without a start-of-packet byte is emptied, and on a slave passed on whole. */
  lemma ParseNoSop(b: seq<byte>, cfg: Cfg)
    requires Magic1 !in b
    ensures Parse(b, cfg) == Result([], Forwarded(b, cfg), [])
  {
    IndexOfAbsent(b, Magic1);
  }

  function TotalLen(fs: seq<seq<byte>>): nat
  {
    if fs == [] then 0 else |fs[0]| + TotalLen(fs[1..])
  }

  /** On a slave every byte is accounted for exactly once: written out, consumed
      in a frame, or still waiting. The master writes nothing out. */
  lemma {:induction false} ParseConserves(b: seq<byte>, cfg: Cfg)
    ensures var r := Parse(b, cfg);
      (cfg.master ==> r.forwarded == []) &&
      (!cfg.master ==> |r.forwarded| + TotalLen(r.frames) + |r.rest| == |b|)
    decreases |b|, 1
  {
    if b != [] {
      var i := IndexOf(b, Magic1);
      if i < |b| {
        ParseAtSopConserves(b[i..], cfg);
      }
    }
  }

  lemma {:induction false} ParseAtSopConserves(p: seq<byte>, cfg: Cfg)
    requires p != [] && p[0] == Magic1
    ensures var r := ParseAtSop(p, cfg);
      (cfg.master ==> r.forwarded == []) &&
      (!cfg.master ==> |r.forwarded| + TotalLen(r.frames) + |r.rest| == |p|)
    decreases |p|, 0
  {
    if |p| >= Header {
      if !HeaderOk(p, cfg) || (|p| >= FrameLen(p) && !ChecksumOk(p)) {
        ParseConserves(p[1..], cfg);
      } else if |p| >= FrameLen(p) {
        var n := FrameLen(p);
        ParseConserves(p[n..], cfg);
        var r := Parse(p[n..], cfg);
        assert ([p[..n]] + r.frames)[1..] == r.frames;
      }
    }
  }

  /** daisy_checksum8: the byte sum of `length` bytes from `from`, modulo 256.
      The C accumulator is 32 bits wide; 256 divides 2^32, so its wrap-around
      cannot change the result. */
  method Checksum8(a: array<byte>, from: nat, length: nat) returns (r: byte)
    requires from + length <= a.Length
    ensures r == Sum8(a[from..from + length])
  {
    var sum: nat := 0;
    for i := 0 to length
      invariant sum % 0x100 == Sum8(a[from..from + i]) as int
    {
      assert a[from..from + i + 1] == a[from..from + i] + [a[from + i]];
      Sum8Append(a[from..from + i], [a[from + i]]);
      Sum8Single(a[from + i]);
      ModAddLeft(a[from + i] as int, sum);
      sum := sum + a[from + i] as nat;
    }
    r := (sum % 0x100) as byte;
  }

  class Link {
    const B: array<byte>
    var Blen: nat
    const cfg: Cfg
    /** Every byte written to the serial line. */
    var out: seq<byte>

    predicate Valid()
      reads this
    {
      B.Length == BSize && Blen <= BSize
    }

    function Contents(): (r: seq<byte>)
      reads this, B
      requires Valid()
      ensures |r| == Blen
    {
      B[..Blen]
    }

    constructor (cfg: Cfg)
      ensures Valid() && Contents() == [] && out == [] && this.cfg == cfg
      ensures fresh(B)
    {
      B := new byte[BSize](_ => 0);
      Blen := 0;
      this.cfg := cfg;
      out := [];
    }

    /** daisy_loop, as intended: read what fits of the bytes waiting on the
        line (`avail`), then parse.  The buffer never holds more than 2048 bytes. */
    method Loop(avail: seq<byte>)
      requires Valid()
      modifies this, B
      ensures Valid()
      ensures var n := if |avail| < BSize - old(Blen) then |avail| else BSize - old(Blen);
        var r := Parse(old(Contents()) + avail[..n], cfg);
        Contents() == r.rest && out == old(out) + r.forwarded
    {
      var n := if |avail| < BSize - Blen then |avail| else BSize - Blen;
      CopyIn(B, Blen, avail[..n]);
      Blen := Blen + n;
      ghost var goal := Parse(Contents(), cfg);
      ghost var out0 := out;
      while Blen > 0
        invariant Valid()
        invariant Parse(Contents(), cfg).rest == goal.rest
        invariant out + Parse(Contents(), cfg).forwarded == out0 + goal.forwarded
        decreases Blen
      {
        ghost var b := Contents();
        ghost var outB := out;
        var found := SyncToSop();
        ghost var i := IndexOf(b, Magic1);
        if !found {
          assert b[..i] == b;
          break;
        }
        ghost var p := Contents();
        ghost var r := ParseAtSop(p, cfg);
        ConcatAssoc(outB, Forwarded(b[..i], cfg), r.forwarded);
        var more := ConsumeAtSop();
        if !more {
          return;
        }
        ConcatAssoc(out, Parse(Contents(), cfg).forwarded, []);
      }
    }

    /** The scan for the start-of-packet byte: the bytes before it are written
        out (on a slave) and removed; with none found the buffer is emptied. */
    method SyncToSop() returns (found: bool)
      requires Valid() && Blen > 0
      modifies this, B
      ensures Valid()
      ensures var b := old(Contents()); var i := IndexOf(b, Magic1);
        out == old(out) + Forwarded(b[..i], cfg) &&
        (found <==> i < |b|) &&
        (found ==> Contents() == b[i..] && Contents()[0] == Magic1) &&
        (!found ==> Blen == 0)
    {
      ghost var b := Contents();
      var i := 0;
      while i < Blen && B[i] != Magic1
        invariant 0 <= i <= Blen
        invariant forall k :: 0 <= k < i ==> B[k] != Magic1
      {
        i := i + 1;
      }
      IndexOfUnique(b, Magic1, i);
      if i > 0 && !cfg.master {
        out := out + B[..i];
      }
      if i == Blen {
        Blen := 0;
        return false;
      }
      if i != 0 {
        ShiftDown(B, i, Blen);
        Blen := Blen - i;
      }
      return true;
    }

    /** One decision at a start-of-packet byte: wait for more bytes
        (`more` false, nothing changes), drop one byte, or consume a frame. */
    method ConsumeAtSop() returns (more: bool)
      requires Valid() && Blen > 0 && Contents()[0] == Magic1
      modifies this, B
      ensures Valid()
      ensures var p := old(Contents()); var r := ParseAtSop(p, cfg);
        if more then
          Blen < old(Blen) && Parse(Contents(), cfg).rest == r.rest &&
          out + Parse(Contents(), cfg).forwarded == old(out) + r.forwarded
        else
          Contents() == p && out == old(out) && r == Result(p, [], [])
    {
      ghost var p := Contents();
      if Blen < Header {
        return false;
      }
      var valid := HeaderValid();
      if !valid {
        Reject();
        return true;
      }
      var len := B[6];
      if Blen < Header + len as nat {
        return false;
      }
      var ck := Checksum8(B, 3, len as nat + 1);
      assert B[3..3 + (len as nat + 1)] == p[3..4 + p[6] as nat];
      if ck != B[2] {
        Reject();
      } else {
        Accept();
      }
      return true;
    }

    /** A bad header or checksum: one byte is dropped (and passed on by a slave). */
    method Reject()
      requires Valid() && Blen >= Header && Contents()[0] == Magic1
      requires !HeaderOk(Contents(), cfg) || (Blen >= FrameLen(Contents()) && !ChecksumOk(Contents()))
      modifies this, B
      ensures Valid()
      ensures var p := old(Contents()); var r := ParseAtSop(p, cfg);
        Blen < old(Blen) && Parse(Contents(), cfg).rest == r.rest &&
        out + Parse(Contents(), cfg).forwarded == old(out) + r.forwarded
    {
      ghost var p := Contents();
      ParseAtSopDrops(p, cfg);
      DropOne();
      ConcatAssoc(old(out), Forwarded(p[..1], cfg), Parse(p[1..], cfg).forwarded);
    }

    /** A complete valid frame: it is shifted out of the buffer whole. */
    method Accept()
      requires Valid() && Blen >= Header && Contents()[0] == Magic1
      requires HeaderOk(Contents(), cfg) && Blen >= FrameLen(Contents()) && ChecksumOk(Contents())
      modifies this, B
      ensures Valid()
      ensures var p := old(Contents()); var r := ParseAtSop(p, cfg);
        Blen < old(Blen) && Parse(Contents(), cfg).rest == r.rest &&
        out + Parse(Contents(), cfg).forwarded == old(out) + r.forwarded
    {
      ghost var p := Contents();
      ParseAtSopConsumes(p, cfg);
      var n := Header + B[6] as nat;
      ShiftDown(B, n, Blen);
      Blen := Blen - n;
      assert Contents() == p[FrameLen(p)..];
    }

    /** The header test of daisy_loop. */
    method HeaderValid() returns (valid: bool)
      requires Valid() && Blen >= Header
      ensures valid == HeaderOk(Contents(), cfg)
    {
      valid := B[1] == Magic2 && B[5] < CmdSize;
      if valid && !cfg.master {
        valid := B[3] == cfg.id0 && B[4] == cfg.id1;
      }
    }

    /** Shift out the first byte, passing it on when this board is a slave. */
    method DropOne()
      requires Valid() && Blen > 0
      modifies this, B
      ensures Valid() && Blen == old(Blen) - 1
      ensures Contents() == old(Contents())[1..]
      ensures out == old(out) + Forwarded(old(Contents())[..1], cfg)
    {
      if !cfg.master {
        out := out + B[..1];
      }
      ShiftDown(B, 1, Blen);
      Blen := Blen - 1;
    }
  }

  // Finding: the one-byte shift as written.

  /** The written one-byte shift: memmove of Blen - 1 bytes with Blen left as
      it was, so the last byte is duplicated instead of removed. */
  function ShiftOneAsWritten(b: seq<byte>): (r: seq<byte>)
    requires b != []
    ensures |r| == |b|
  {
    b[1..] + [b[|b| - 1]]
  }

  /** Seven start-of-packet bytes form an invalid header, and the written shift
      leaves them as they were, so the written loop never leaves them. */
  lemma ShiftOneAsWrittenStalls(cfg: Cfg)
    ensures var s := Repeat(Magic1, 7); !HeaderOk(s, cfg) && ShiftOneAsWritten(s) == s
  {
    var s := Repeat(Magic1, 7);
    assert s == [Magic1, Magic1, Magic1, Magic1, Magic1, Magic1, Magic1];
  }

  /** The intended parse drops one byte per invalid start and stops with six bytes waiting. */
  lemma ShiftOneCorrected(cfg: Cfg)
    ensures Parse(Repeat(Magic1, 7), cfg).rest == Repeat(Magic1, 6)
  {
    var s := Repeat(Magic1, 7);
    assert s == [Magic1, Magic1, Magic1, Magic1, Magic1, Magic1, Magic1];
    assert IndexOf(s, Magic1) == 0 && s[0..] == s;
    var t := Repeat(Magic1, 6);
    assert t == [Magic1, Magic1, Magic1, Magic1, Magic1, Magic1];
    assert s[1..] == t;
    ParseWaitingIsFixed(t, cfg);
  }
}
