/** Fixed-width integers, byte strings and the two buffer primitives
    (memmove towards the front, memcpy at an offset) that every component
    of the firmware uses on its fixed-size arenas. */
module Bytes {

  type byte = b: int | 0 <= b < 0x100
  type uint16 = x: int | 0 <= x < 0x1_0000
  type uint32 = x: int | 0 <= x < 0x1_0000_0000
  type int32 = x: int | -0x8000_0000 <= x < 0x8000_0000

  datatype Option<T> = None | Some(value: T)

  /** Two's-complement reinterpretation between int32_t and uint32_t. */
  function ToUnsigned32(x: int32): (u: uint32)
    ensures ToSigned32(u) == x
  {
    if x < 0 then x + 0x1_0000_0000 else x
  }

  function ToSigned32(u: uint32): (x: int32)
    ensures x % 0x1_0000_0000 == u
  {
    if u < 0x8000_0000 then u else u - 0x1_0000_0000
  }

  /** 256^n: the number of values an n-byte field can hold. */
  function Pow256(n: nat): (r: nat)
    ensures r >= 1
  {
    if n == 0 then 1 else 0x100 * Pow256(n - 1)
  }

  /** Little-endian layout of `v` in `n` bytes (packed structs on the ESP8266), least significant byte first. */
  function PackLE(v: nat, n: nat): (r: seq<byte>)
    requires v < Pow256(n)
    ensures |r| == n
  {
    if n == 0 then [] else [v % 0x100] + PackLE(v / 0x100, n - 1)
  }

  /** The value of a little-endian byte string. */
  function UnpackLE(b: seq<byte>): (v: nat)
    ensures v < Pow256(|b|)
  {
    if b == [] then 0 else b[0] as int + 0x100 * UnpackLE(b[1..])
  }

  lemma {:induction false} UnpackPackLE(v: nat, n: nat)
    requires v < Pow256(n)
    ensures UnpackLE(PackLE(v, n)) == v
  {
    if n > 0 {
      UnpackPackLE(v / 0x100, n - 1);
      assert PackLE(v, n)[1..] == PackLE(v / 0x100, n - 1);
    }
  }

  lemma {:induction false} PackUnpackLE(b: seq<byte>)
    ensures PackLE(UnpackLE(b), |b|) == b
  {
    if b != [] {
      var t := UnpackLE(b[1..]);
      PackUnpackLE(b[1..]);
      DivMod256(b[0], t);
      assert PackLE(UnpackLE(b), |b|) == [b[0]] + PackLE(t, |b| - 1);
    }
  }

  lemma DivMod256(a: byte, t: nat)
    ensures (a + 0x100 * t) % 0x100 == a && (a + 0x100 * t) / 0x100 == t
  {
  }

  function PackLE16(v: uint16): (r: seq<byte>)
    ensures |r| == 2 && UnpackLE(r) == v
  {
    UnpackPackLE(v, 2);
    PackLE(v, 2)
  }

  function PackLE32(v: uint32): (r: seq<byte>)
    ensures |r| == 4 && UnpackLE(r) == v
  {
    UnpackPackLE(v, 4);
    PackLE(v, 4)
  }

  /** A little-endian 16-bit field. */
  function UnpackLE16(b: seq<byte>): (v: uint16)
    requires |b| == 2
  {
    b[0] as int + 0x100 * b[1] as int
  }

  lemma UnpackLE2(b: seq<byte>)
    requires |b| == 2
    ensures UnpackLE(b) == UnpackLE16(b)
  {
    var b1 := b[1..];
    assert b1[1..] == [];
    assert UnpackLE(b1) == b1[0] as int;
  }

  lemma UnpackPackLE16(v: uint16)
    ensures UnpackLE16(PackLE16(v)) == v
  {
    UnpackLE2(PackLE16(v));
  }

  /** A little-endian 32-bit field. */
  function UnpackLE32(b: seq<byte>): (v: uint32)
    requires |b| == 4
  {
    b[0] as int + 0x100 * b[1] as int + 0x1_0000 * b[2] as int + 0x100_0000 * b[3] as int
  }

  lemma UnpackLE4(b: seq<byte>)
    requires |b| == 4
    ensures UnpackLE(b) == UnpackLE32(b)
  {
    var b1 := b[1..];
    var b2 := b1[1..];
    var b3 := b2[1..];
    assert b3[1..] == [];
    assert UnpackLE(b3) == b3[0] as int;
    assert UnpackLE(b2) == b2[0] as int + 0x100 * b3[0] as int;
    assert UnpackLE(b1) == b1[0] as int + 0x100 * b2[0] as int + 0x1_0000 * b3[0] as int;
  }

  lemma UnpackPackLE32(v: uint32)
    ensures UnpackLE32(PackLE32(v)) == v
  {
    UnpackLE4(PackLE32(v));
  }

  lemma PackUnpackLE32(b: seq<byte>)
    requires |b| == 4
    ensures PackLE32(UnpackLE32(b)) == b
  {
    UnpackLE4(b);
    PackUnpackLE(b);
  }

  /** The four bytes of an `int32_t` as it sits in memory: two's complement, little-endian. */
  function PackInt32(x: int32): (r: seq<byte>)
    ensures |r| == 4
  {
    PackLE32(ToUnsigned32(x))
  }

  /** The `int32_t` whose memory bytes are `b`. */
  function UnpackInt32(b: seq<byte>): int32
    requires |b| == 4
  {
    ToSigned32(UnpackLE32(b))
  }

  lemma UnpackPackInt32(x: int32)
    ensures UnpackInt32(PackInt32(x)) == x
  {
    UnpackPackLE32(ToUnsigned32(x));
  }

  lemma PackUnpackInt32(b: seq<byte>)
    requires |b| == 4
    ensures PackInt32(UnpackInt32(b)) == b
  {
    var u := UnpackLE32(b);
    assert ToUnsigned32(ToSigned32(u)) == u;
    PackUnpackLE32(b);
  }

  /** Index of the first occurrence of `x` in `s`, or |s| when there is none. */
  function IndexOf(s: seq<byte>, x: byte): (r: nat)
    ensures r <= |s|
    ensures r < |s| ==> s[r] == x
    ensures forall k :: 0 <= k < r ==> s[k] != x
  {
    if s == [] then 0
    else if s[0] == x then 0
    else 1 + IndexOf(s[1..], x)
  }

  /** Searching a longer buffer finds the same first occurrence when the shorter one has it. */
  lemma {:induction false} IndexOfExtend(s: seq<byte>, t: seq<byte>, x: byte)
    requires IndexOf(s, x) < |s|
    ensures IndexOf(s + t, x) == IndexOf(s, x)
  {
    if s[0] != x {
      assert (s + t)[1..] == s[1..] + t;
      IndexOfExtend(s[1..], t, x);
    }
  }

  /** A scan that stops at the first `x` (or runs off the end) finds IndexOf. */
  lemma IndexOfUnique(s: seq<byte>, x: byte, i: nat)
    requires i <= |s| && (i < |s| ==> s[i] == x)
    requires forall k :: 0 <= k < i ==> s[k] != x
    ensures IndexOf(s, x) == i
  {
  }

  /** `x` does not occur in `s` exactly when the search runs off the end. */
  lemma IndexOfAbsent(s: seq<byte>, x: byte)
    ensures IndexOf(s, x) == |s| <==> x !in s
  {
    var r := IndexOf(s, x);
    if r < |s| {
      assert s[r] == x;
    }
  }

  /** A slice of a slice is a slice of the whole. */
  lemma SliceOfSlice<T>(s: seq<T>, at: nat, len: nat, i: nat, k: nat)
    requires at + len <= |s| && i + k <= len
    ensures s[at..at + len][i..i + k] == s[at + i..at + i + k]
  {
    var a, b := s[at..at + len][i..i + k], s[at + i..at + i + k];
    forall j | 0 <= j < k
      ensures a[j] == b[j]
    {
      assert a[j] == s[at..at + len][i + j];
    }
  }

  /** A sequence is its prefix, a middle slice and the rest. */
  lemma Split3<T>(s: seq<T>, at: nat, len: nat)
    requires at + len <= |s|
    ensures s == s[..at] + s[at..at + len] + s[at + len..]
  {
  }

  lemma ConcatAssoc<T>(a: seq<T>, b: seq<T>, c: seq<T>)
    ensures (a + b) + c == a + (b + c)
  {
  }

  /** The C-string prefix of a byte buffer: the bytes before the first NUL. */
  function CString(s: seq<byte>): (r: seq<byte>)
    ensures |r| <= |s| && r == s[..|r|]
    ensures 0 !in r
    ensures |r| < |s| ==> s[|r|] == 0
  {
    s[..IndexOf(s, 0)]
  }

  /** Additive checksum: sum of the bytes modulo 256. */
  function Sum8(s: seq<byte>): byte
  {
    if s == [] then 0 else (s[0] as int + Sum8(s[1..])) % 0x100
  }

  lemma {:induction false} Sum8Append(s: seq<byte>, t: seq<byte>)
    ensures Sum8(s + t) == (Sum8(s) + Sum8(t)) % 0x100
  {
    if s != [] {
      assert (s + t)[0] == s[0] && (s + t)[1..] == s[1..] + t;
      Sum8Append(s[1..], t);
      var a, b, c := s[0] as int, Sum8(s[1..]) as int, Sum8(t) as int;
      calc {
        Sum8(s + t) as int;
        (a + Sum8(s[1..] + t)) % 0x100;
        (a + (b + c) % 0x100) % 0x100;
        { ModAddLeft(a, b + c); }
        (a + b + c) % 0x100;
        { ModAddLeft(c, a + b); }
        (c + (a + b) % 0x100) % 0x100;
        (Sum8(s) + Sum8(t)) % 0x100;
      }
    } else {
      assert s + t == t;
    }
  }

  lemma ModAddLeft(a: int, b: int)
    ensures (a + b % 0x100) % 0x100 == (a + b) % 0x100
  {
  }

  lemma Sum8Single(b: byte)
    ensures Sum8([b]) == b
  {
  }

  /** A sequence of `n` copies of `b`. */
  function Repeat(b: byte, n: nat): (r: seq<byte>)
    ensures |r| == n && forall k :: 0 <= k < n ==> r[k] == b
  {
    if n == 0 then [] else [b] + Repeat(b, n - 1)
  }

  function Zeros(n: nat): (r: seq<byte>)
    ensures |r| == n && forall k :: 0 <= k < n ==> r[k] == 0
  {
    Repeat(0, n)
  }

  /** memmove(a, &a[k], len - k): drop the first k of the len elements in use
      and close the gap; the elements from len - k on are untouched. */
  method ShiftDown<T>(a: array<T>, k: nat, len: nat)
    requires k <= len <= a.Length
    modifies a
    ensures a[..len - k] == old(a[..len])[k..]
    ensures a[len - k..] == old(a[len - k..])
  {
    ghost var used := a[..len];
    var i := 0;
    while i < len - k
      invariant 0 <= i <= len - k
      invariant a[..i] == used[k..k + i]
      invariant a[i..] == old(a[i..])
    {
      a[i] := a[i + k];
      assert a[..i + 1] == a[..i] + [a[i]];
      i := i + 1;
    }
  }

  /** memcpy(&a[at], s, |s|). */
  method CopyIn<T>(a: array<T>, at: nat, s: seq<T>)
    requires at + |s| <= a.Length
    modifies a
    ensures a[..] == old(a[..at]) + s + old(a[at + |s|..])
  {
    var k := 0;
    while k < |s|
      invariant 0 <= k <= |s|
      invariant a[..at] == old(a[..at])
      invariant a[at..at + k] == s[..k]
      invariant a[at + k..] == old(a[at + k..])
    {
      a[at + k] := s[k];
      assert a[at..at + k + 1] == a[at..at + k] + [a[at + k]];
      k := k + 1;
    }
    assert a[..] == a[..at] + a[at..at + |s|] + a[at + |s|..];
  }
}
