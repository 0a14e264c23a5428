/** The packet checksum of the ATECC508A crypto chip: a CRC-16 with
    polynomial 0x8005 and a zero start value, fed each byte least
    significant bit first; `Pack` stamps the length byte and the CRC on an
    outgoing packet and `Check` validates an incoming one. A packet is
    `len` bytes long, its first byte is the length and its last two bytes
    are the CRC, low byte first, of everything before them. */
module Ecc {
  import opened Bytes

  const Polynomial: bv16 := 0x8005

  /** The single-bit mask the inner loop holds after `j` left shifts of 0x01. */
  function Mask(j: nat): (m: bv8)
    requires j < 8
    ensures m != 0
  {
    match j
    case 0 => 0x01
    case 1 => 0x02
    case 2 => 0x04
    case 3 => 0x08
    case 4 => 0x10
    case 5 => 0x20
    case 6 => 0x40
    case 7 => 0x80
  }

  lemma NextMask(j: nat, shift: bv8)
    requires j < 8 && shift == Mask(j)
    ensures (shift << 1 == 0) == (j == 7)
    ensures j < 7 ==> shift << 1 == Mask(j + 1)
  {
  }

  /** Bit `j` of `b`, counting from the least significant. */
  function BitOf(b: bv8, j: nat): bool
    requires j < 8
  {
    b & Mask(j) != 0
  }

  /** One step of the shift register: shift left, and add the polynomial
      when the incoming data bit differs from the bit shifted out. */
  function CrcBit(reg: bv16, bit: bool): bv16
  {
    var out := reg >> 15 == 1;
    if bit != out then (reg << 1) ^ Polynomial else reg << 1
  }

  /** The register after the low `j` bits of `b` have been shifted in. */
  function CrcBits(reg: bv16, b: bv8, j: nat): bv16
    requires j <= 8
  {
    if j == 0 then reg else CrcBit(CrcBits(reg, b, j - 1), BitOf(b, j - 1))
  }

  function CrcByte(reg: bv16, b: bv8): bv16
  {
    CrcBits(reg, b, 8)
  }

  /** The CRC of a byte string, starting from a zero register. */
  function Crc(s: seq<byte>): (r: bv16)
    ensures s == [] ==> r == 0x0000
  {
    if s == [] then 0 else CrcByte(Crc(s[..|s| - 1]), s[|s| - 1] as bv8)
  }

  /** The CRC can be computed incrementally, one byte at a time. */
  lemma CrcAppend(s: seq<byte>, b: byte)
    ensures Crc(s + [b]) == CrcByte(Crc(s), b as bv8)
  {
    assert (s + [b])[..|s|] == s;
  }

  /** The device's wake-up response 04 11 33 43 carries a valid CRC: 0x4333 over 04 11. */
  lemma WakeResponse()
    ensures Crc([0x04, 0x11]) == 0x4333
  {
    var s: seq<byte> := [0x04, 0x11];
    assert s[..1][..0] == [];
    WakeFirstByte();
    WakeSecondByte();
  }

  lemma WakeFirstByte()
    ensures CrcByte(0x0000, 0x04) == 0x80C3
  {
    assert CrcBits(0x0000, 0x04, 1) == 0x0000;
    assert CrcBits(0x0000, 0x04, 2) == 0x0000;
    assert CrcBits(0x0000, 0x04, 3) == 0x8005;
    assert CrcBits(0x0000, 0x04, 4) == 0x800F;
    assert CrcBits(0x0000, 0x04, 5) == 0x801B;
    assert CrcBits(0x0000, 0x04, 6) == 0x8033;
    assert CrcBits(0x0000, 0x04, 7) == 0x8063;
    assert CrcBits(0x0000, 0x04, 8) == 0x80C3;
  }

  lemma WakeSecondByte()
    ensures CrcByte(0x80C3, 0x11) == 0x4333
  {
    assert CrcBits(0x80C3, 0x11, 1) == 0x0186;
    assert CrcBits(0x80C3, 0x11, 2) == 0x030C;
    assert CrcBits(0x80C3, 0x11, 3) == 0x0618;
    assert CrcBits(0x80C3, 0x11, 4) == 0x0C30;
    assert CrcBits(0x80C3, 0x11, 5) == 0x9865;
    assert CrcBits(0x80C3, 0x11, 6) == 0xB0CF;
    assert CrcBits(0x80C3, 0x11, 7) == 0xE19B;
    assert CrcBits(0x80C3, 0x11, 8) == 0x4333;
  }

  function Low(c: bv16): byte
  {
    (c & 0xFF) as int
  }

  function High(c: bv16): byte
  {
    (c >> 8) as int
  }

  /** The CRC as it is stored in a packet, low byte first. */
  function CrcBytes(c: bv16): seq<byte>
  {
    [Low(c), High(c)]
  }

  /** A packet buffer after `_ecc_pack(s, len)`. The source passes the CRC
      span `len - 2` through a `uint8_t` parameter, so it is taken modulo 256;
      `len == 1` would write before the buffer and is excluded. */
  function Packed(s: seq<byte>, len: nat): (r: seq<byte>)
    requires len <= |s| && len != 1
    ensures |r| == |s|
  {
    if len == 0 then s
    else
      var s1 := s[0 := len % 0x100];
      s1[..len - 2] + CrcBytes(Crc(s1[..(len - 2) % 0x100])) + s1[len..]
  }

  /** Whether `_ecc_check(s, len)` accepts the packet. */
  predicate Checks(s: seq<byte>, len: nat): (ok: bool)
    requires len <= |s| && len != 1
    ensures len == 0 ==> !ok
  {
    len != 0 && s[len - 2..len] == CrcBytes(Crc(s[..(len - 2) % 0x100]))
  }

  /** A packed packet passes the check, whatever the buffer held before. */
  lemma PackedChecks(s: seq<byte>, len: nat)
    requires 2 <= len <= |s|
    ensures Checks(Packed(s, len), len)
  {
    var s1 := s[0 := len % 0x100];
    var r := Packed(s, len);
    var n := (len - 2) % 0x100;
    var c := CrcBytes(Crc(s1[..n]));
    assert n <= len - 2;
    assert r == s1[..len - 2] + c + s1[len..];
    assert r[..n] == s1[..n];
    assert r[len - 2..len] == c;
  }

  /** Packing stamps the length in byte 0 (when the CRC does not overwrite it)
      and leaves the payload between it and the CRC untouched. */
  lemma PackedLayout(s: seq<byte>, len: nat)
    requires 3 <= len <= |s|
    ensures Packed(s, len)[0] == len % 0x100
    ensures Packed(s, len)[1..len - 2] == s[1..len - 2]
    ensures Packed(s, len)[len..] == s[len..]
  {
    var s1 := s[0 := len % 0x100];
    assert Packed(s, len)[..len - 2] == s1[..len - 2];
  }

  /** The CRC of zero bytes is 0x0000: a two-byte packet packs to two zero bytes. */
  lemma PackedEmpty(s: seq<byte>)
    requires 2 <= |s|
    ensures Packed(s, 2) == [0, 0] + s[2..]
  {
    assert s[0 := 2][..0] == [];
  }

  /** One shift-register step, as the inner loop body performs it. */
  method Feed(reg0: bv16, dataBit: bool) returns (reg: bv16)
    ensures reg == CrcBit(reg0, dataBit)
  {
    var crcBit := reg0 >> 15 == 1;
    reg := reg0 << 1;
    if dataBit != crcBit {
      reg := reg ^ Polynomial;
    }
  }

  /** The inner loop of `_ecc_crc16`: a one-bit mask shifted left until it
      falls off the byte selects the data bits, least significant first. */
  method ShiftIn(reg0: bv16, b: bv8) returns (reg: bv16)
    ensures reg == CrcByte(reg0, b)
  {
    reg := reg0;
    var shift: bv8 := 0x01;
    ghost var j := 0;
    while shift > 0
      invariant 0 <= j <= 8
      invariant j < 8 ==> shift == Mask(j)
      invariant (shift == 0) == (j == 8)
      invariant reg == CrcBits(reg0, b, j)
      decreases 8 - j
    {
      var dataBit := b & shift != 0;
      assert dataBit == BitOf(b, j);
      reg := Feed(reg, dataBit);
      NextMask(j, shift);
      shift := shift << 1;
      j := j + 1;
    }
  }

  /** The outer loop of `_ecc_crc16`: the register after the first `len` bytes. */
  method Register(data: array<byte>, len: byte) returns (reg: bv16)
    requires len <= data.Length
    ensures reg == Crc(data[..len])
  {
    reg := 0;
    var counter: byte := 0;
    while counter < len
      invariant counter <= len
      invariant reg == Crc(data[..counter])
    {
      reg := ShiftIn(reg, data[counter] as bv8);
      assert data[..counter + 1] == data[..counter] + [data[counter]];
      CrcAppend(data[..counter], data[counter]);
      counter := counter + 1;
    }
  }

  /** `_ecc_crc16(data, len, crc)`: the CRC of the first `len` bytes of
      `data`, written low byte first at `crc[at]`. `crc` may be `data`
      itself, as in `Pack`: every read of `data` precedes the two writes. */
  method Crc16(data: array<byte>, len: byte, crc: array<byte>, at: nat)
    requires len <= data.Length && at + 2 <= crc.Length
    modifies crc
    ensures crc[..] == old(crc[..at]) + CrcBytes(Crc(old(data[..len]))) + old(crc[at + 2..])
  {
    var reg := Register(data, len);
    crc[at] := Low(reg);
    crc[at + 1] := High(reg);
    assert crc[..] == crc[..at] + crc[at..at + 2] + crc[at + 2..];
  }

  /** `_ecc_pack(data, len)`. */
  method Pack(data: array<byte>, len: nat)
    requires len <= data.Length && len != 1
    modifies data
    ensures data[..] == Packed(old(data[..]), len)
  {
    if len == 0 {
      return;
    }
    data[0] := len % 0x100;
    ghost var s1 := data[..];
    Crc16(data, (len - 2) % 0x100, data, len - 2);
    assert s1[..len - 2] == s1[..len][..len - 2];
  }

  /** `_ecc_check(data, len)`. */
  method Check(data: array<byte>, len: nat) returns (ok: bool)
    requires len <= data.Length && len != 1
    ensures ok == Checks(data[..], len)
  {
    if len == 0 {
      return false;
    }
    var crc := new byte[2](_ => 0);
    Crc16(data, (len - 2) % 0x100, crc, 0);
    ok := data[len - 2] == crc[0] && data[len - 1] == crc[1];
    assert data[..][len - 2..len] == [data[len - 2], data[len - 1]];
  }
}
