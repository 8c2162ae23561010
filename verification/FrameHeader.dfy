/**
 The fixed 24-byte frame prefix (src/protocol/frame_header.cpp).  `little` is the byte order of the
 host: integers are laid out in memory in that order and converted with htons, htonl and the
 hand-written 64-bit conversion, so that the wire is big-endian on every host.
 */
module FrameHeader {
  import opened Common

  type U8 = x: int | 0 <= x < 0x100
  type U16 = x: int | 0 <= x < 0x1_0000
  type U32 = x: int | 0 <= x < 0x1_0000_0000
  type U64 = x: int | 0 <= x < 0x1_0000_0000_0000_0000

  const MAGIC: U32 := 0x58525043
  const VERSION: U8 := 1
  const SIZE := 24

  /** The message type is kept as the byte on the wire: decoding does not validate it. */
  datatype FrameHeader = FrameHeader(
    magic: U32, version: U8, messageType: U8, flags: U16, metadataSize: U32, payloadSize: U32, requestId: U64)

  // ----- Integers as bytes

  function Power(n: nat): (p: nat)
    ensures p > 0
  {
    if n == 0 then 1 else 256 * Power(n - 1)
  }

  function Little(n: nat, x: nat): (s: Bytes)
    ensures |s| == n
  {
    if n == 0 then [] else [x % 256] + Little(n - 1, x / 256)
  }

  function Big(n: nat, x: nat): (s: Bytes)
    ensures |s| == n
  {
    if n == 0 then [] else Big(n - 1, x / 256) + [x % 256]
  }

  function FromLittle(s: Bytes): nat {
    if s == [] then 0 else s[0] + 256 * FromLittle(s[1..])
  }

  function FromBig(s: Bytes): nat {
    if s == [] then 0 else 256 * FromBig(s[..|s| - 1]) + s[|s| - 1]
  }

  lemma {:induction false} FromLittleBound(s: Bytes)
    ensures FromLittle(s) < Power(|s|)
  {
    if s != [] { FromLittleBound(s[1..]); }
  }

  lemma {:induction false} FromBigBound(s: Bytes)
    ensures FromBig(s) < Power(|s|)
  {
    if s != [] { FromBigBound(s[..|s| - 1]); }
  }

  lemma {:induction false} Digit(q: nat, b: Byte)
    ensures (b + 256 * q) % 256 == b && (b + 256 * q) / 256 == q
  {
  }

  lemma {:induction false} LittleInverts(s: Bytes)
    ensures Little(|s|, FromLittle(s)) == s
  {
    if s != [] {
      var q := FromLittle(s[1..]);
      LittleInverts(s[1..]);
      Digit(q, s[0]);
      assert FromLittle(s) == s[0] + 256 * q;
      assert Little(|s|, FromLittle(s)) == [s[0]] + Little(|s| - 1, q);
      assert s == [s[0]] + s[1..];
    }
  }

  lemma {:induction false} FromLittleInverts(n: nat, x: nat)
    requires x < Power(n)
    ensures FromLittle(Little(n, x)) == x
  {
    if n > 0 {
      FromLittleInverts(n - 1, x / 256);
      assert Little(n, x)[1..] == Little(n - 1, x / 256);
    }
  }

  lemma {:induction false} BigInverts(s: Bytes)
    ensures Big(|s|, FromBig(s)) == s
  {
    if s != [] {
      var t := s[..|s| - 1];
      var q := FromBig(t);
      BigInverts(t);
      Digit(q, s[|s| - 1]);
      assert Big(|s|, FromBig(s)) == Big(|s| - 1, q) + [s[|s| - 1]];
      assert s == t + [s[|s| - 1]];
    }
  }

  lemma {:induction false} FromBigInverts(n: nat, x: nat)
    requires x < Power(n)
    ensures FromBig(Big(n, x)) == x
  {
    if n > 0 {
      FromBigInverts(n - 1, x / 256);
      assert Big(n, x)[..n - 1] == Big(n - 1, x / 256);
    }
  }

  lemma {:induction false} LittleJoins(m: nat, n: nat, a: nat, b: nat)
    requires a < Power(m)
    ensures Little(m + n, a + b * Power(m)) == Little(m, a) + Little(n, b)
  {
    if m == 0 {
      assert Little(m, a) == [];
    } else {
      var c := b * Power(m - 1);
      assert b * Power(m) == 256 * c by { Rotate(b, 256, Power(m - 1)); }
      assert (a + 256 * c) % 256 == a % 256 && (a + 256 * c) / 256 == a / 256 + c;
      LittleJoins(m - 1, n, a / 256, b);
    }
  }

  lemma {:induction false} BigJoins(m: nat, n: nat, a: nat, b: nat)
    requires a < Power(m)
    ensures Big(n + m, a + b * Power(m)) == Big(n, b) + Big(m, a)
  {
    if m == 0 {
      assert Big(m, a) == [];
    } else {
      var c := b * Power(m - 1);
      assert b * Power(m) == 256 * c by { Rotate(b, 256, Power(m - 1)); }
      assert (a + 256 * c) % 256 == a % 256 && (a + 256 * c) / 256 == a / 256 + c;
      BigJoins(m - 1, n, a / 256, b);
    }
  }

  lemma {:induction false} Rotate(a: nat, b: nat, c: nat)
    ensures a * (b * c) == b * (a * c)
  {
  }

  lemma {:induction false} Powers()
    ensures Power(1) == 0x100 && Power(2) == 0x1_0000 && Power(4) == 0x1_0000_0000
    ensures Power(8) == 0x1_0000_0000_0000_0000
  {
    assert Power(3) == 256 * Power(2) && Power(5) == 256 * Power(4)
           && Power(6) == 256 * Power(5) && Power(7) == 256 * Power(6);
  }

  // ----- The host's memory and its conversions

  /** The bytes `memcpy` copies out of an integer variable of `n` bytes. */
  function Stored(little: bool, n: nat, x: nat): (s: Bytes)
    ensures |s| == n
  {
    if little then Little(n, x) else Big(n, x)
  }

  /** The value of an integer variable whose bytes `memcpy` filled in. */
  function Loaded(little: bool, s: Bytes): nat {
    if little then FromLittle(s) else FromBig(s)
  }

  function ByteSwap(n: nat, x: nat): (y: nat)
    ensures y < Power(n)
  {
    FromLittleBound(Big(n, x));
    FromLittle(Big(n, x))
  }

  /** `htons` and `htonl`, and with them `ntohs` and `ntohl`. */
  function HostToNetwork(little: bool, n: nat, x: nat): (y: nat)
    requires x < Power(n)
    ensures y < Power(n)
  {
    if little then ByteSwap(n, x) else x
  }

  function HostToNetwork64(little: bool, x: U64): (y: U64) {
    Powers();
    if little
    then HostToNetwork(little, 4, x % 0x1_0000_0000) * 0x1_0000_0000 + HostToNetwork(little, 4, x / 0x1_0000_0000)
    else x
  }

  lemma {:induction false} WireIsBigEndian(little: bool, n: nat, x: nat)
    requires x < Power(n)
    ensures Stored(little, n, HostToNetwork(little, n, x)) == Big(n, x)
  {
    LittleInverts(Big(n, x));
  }

  /** Converting both halves and swapping them is the 64-bit conversion. */
  lemma {:induction false} WireIsBigEndian64(little: bool, x: U64)
    ensures Stored(little, 8, HostToNetwork64(little, x)) == Big(8, x)
  {
    Powers();
    if little {
      var low, high := x % 0x1_0000_0000, x / 0x1_0000_0000;
      LittleJoins(4, 4, ByteSwap(4, high), ByteSwap(4, low));
      WireIsBigEndian(true, 4, low);
      WireIsBigEndian(true, 4, high);
      BigJoins(4, 4, low, high);
      assert x == low + high * Power(4);
    }
  }

  lemma {:induction false} HostReadsBigEndian(little: bool, s: Bytes)
    ensures Loaded(little, s) < Power(|s|)
    ensures HostToNetwork(little, |s|, Loaded(little, s)) == FromBig(s)
  {
    FromLittleBound(s);
    FromBigBound(s);
    if little { SwapReads(s); }
  }

  lemma {:induction false} SwapReads(s: Bytes)
    ensures ByteSwap(|s|, FromLittle(s)) == FromBig(s)
  {
    var x := FromLittle(s);
    var y := FromLittle(Big(|s|, x));
    // Both FromBig(s) and y are below Power(|s|) and have the same little-endian bytes.
    MirrorBytes(s);
    LittleInverts(Big(|s|, x));
    FromBigBound(s);
    FromLittleBound(Big(|s|, x));
    FromLittleInverts(|s|, FromBig(s));
    FromLittleInverts(|s|, y);
  }

  /** Reading in one order and writing in the other mirrors the bytes, whichever comes first. */
  lemma {:induction false} MirrorBytes(s: Bytes)
    ensures Big(|s|, FromLittle(s)) == Little(|s|, FromBig(s))
  {
    MirrorOfLittle(s);
    MirrorOfBig(s);
  }

  function Mirror(s: Bytes): (r: Bytes)
    ensures |r| == |s|
  {
    if s == [] then [] else Mirror(s[1..]) + [s[0]]
  }

  lemma {:induction false} MirrorOfLittle(s: Bytes)
    ensures Big(|s|, FromLittle(s)) == Mirror(s)
  {
    if s != [] {
      MirrorOfLittle(s[1..]);
      Digit(FromLittle(s[1..]), s[0]);
    }
  }

  lemma {:induction false} MirrorOfBig(s: Bytes)
    ensures Little(|s|, FromBig(s)) == Mirror(s)
  {
    if s != [] {
      var t := s[..|s| - 1];
      MirrorOfBig(t);
      Digit(FromBig(t), s[|s| - 1]);
      MirrorEnd(t, s[|s| - 1]);
      assert s == t + [s[|s| - 1]];
    }
  }

  lemma {:induction false} MirrorEnd(s: Bytes, b: Byte)
    ensures Mirror(s + [b]) == [b] + Mirror(s)
  {
    if s == [] {
      assert s + [b] == [b];
      assert [b][1..] == [];
    } else {
      MirrorEnd(s[1..], b);
      assert (s + [b])[1..] == s[1..] + [b];
    }
  }

  lemma {:induction false} HostReadsBigEndian64(little: bool, s: Bytes)
    requires |s| == 8
    ensures Loaded(little, s) < 0x1_0000_0000_0000_0000
    ensures HostToNetwork64(little, Loaded(little, s)) == FromBig(s)
  {
    Powers();
    FromLittleBound(s);
    FromBigBound(s);
    if little {
      var x := FromLittle(s);
      WireIsBigEndian64(true, x);
      MirrorBytes(s);
      FromLittleInverts(8, HostToNetwork64(true, x));
      FromLittleInverts(8, FromBig(s));
    }
  }

  // ----- The wire layout

  function EncodeHeader(h: FrameHeader): (s: Bytes)
    ensures |s| == SIZE
  {
    Big(4, h.magic) + [h.version, h.messageType] + Big(2, h.flags)
    + Big(4, h.metadataSize) + Big(4, h.payloadSize) + Big(8, h.requestId)
  }

  method Memcpy(buffer: array<Byte>, at: nat, bytes: Bytes)
    requires at + |bytes| <= buffer.Length
    modifies buffer
    ensures buffer[..at + |bytes|] == old(buffer[..at]) + bytes
    ensures forall j :: at + |bytes| <= j < buffer.Length ==> buffer[j] == old(buffer[j])
  {
    for i := 0 to |bytes|
      invariant buffer[..at + i] == old(buffer[..at]) + bytes[..i]
      invariant forall j :: at + i <= j < buffer.Length ==> buffer[j] == old(buffer[j])
    {
      ghost var was := buffer[..at + i];
      buffer[at + i] := bytes[i];
      assert buffer[..at + i + 1] == was + [bytes[i]];
    }
  }

  /** Whatever the host's byte order, the buffer receives the big-endian layout and nothing after it changes. */
  method EncodeTo(little: bool, h: FrameHeader, buffer: array<Byte>)
    requires buffer.Length >= SIZE
    modifies buffer
    ensures buffer[..SIZE] == EncodeHeader(h)
    ensures forall j :: SIZE <= j < buffer.Length ==> buffer[j] == old(buffer[j])
  {
    Powers();
    WireIsBigEndian(little, 4, h.magic);
    WireIsBigEndian(little, 2, h.flags);
    WireIsBigEndian(little, 4, h.metadataSize);
    WireIsBigEndian(little, 4, h.payloadSize);
    WireIsBigEndian64(little, h.requestId);
    hide *;
    Memcpy(buffer, 0, Stored(little, 4, HostToNetwork(little, 4, h.magic)));
    assert buffer[..4] == Big(4, h.magic);
    buffer[4] := h.version;
    buffer[5] := h.messageType;
    assert buffer[..6] == buffer[..4] + [h.version, h.messageType];
    Memcpy(buffer, 6, Stored(little, 2, HostToNetwork(little, 2, h.flags)));
    Memcpy(buffer, 8, Stored(little, 4, HostToNetwork(little, 4, h.metadataSize)));
    Memcpy(buffer, 12, Stored(little, 4, HostToNetwork(little, 4, h.payloadSize)));
    Memcpy(buffer, 16, Stored(little, 8, HostToNetwork64(little, h.requestId)));
    HeaderBytes(h);
  }

  lemma {:induction false} HeaderBytes(h: FrameHeader)
    ensures EncodeHeader(h) ==
      Big(4, h.magic) + [h.version, h.messageType] + Big(2, h.flags)
      + Big(4, h.metadataSize) + Big(4, h.payloadSize) + Big(8, h.requestId)
  {
  }

  function Load(little: bool, s: Bytes): (x: nat)
    ensures x < Power(|s|) && x == FromBig(s)
  {
    HostReadsBigEndian(little, s);
    HostToNetwork(little, |s|, Loaded(little, s))
  }

  function Load64(little: bool, s: Bytes): (x: U64)
    requires |s| == 8
    ensures x == FromBig(s)
  {
    HostReadsBigEndian64(little, s);
    HostToNetwork64(little, Loaded(little, s))
  }

  function Decode(little: bool, buf: Bytes): Option<FrameHeader> {
    Powers();
    if |buf| < SIZE then None
    else if Load(little, buf[..4]) != MAGIC then None
    else Some(FrameHeader(MAGIC, buf[4], buf[5], Load(little, buf[6..8]), Load(little, buf[8..12]),
                          Load(little, buf[12..16]),
      Load64(little, buf[16..24])))
  }

  /** Decoding undoes encoding, on any pair of hosts and whatever follows the prefix; a foreign magic
      number is rejected. */
  lemma {:induction false} DecodeInverts(little: bool, h: FrameHeader, rest: Bytes)
    ensures Decode(little, EncodeHeader(h) + rest) == if h.magic == MAGIC then Some(h) else None
  {
    hide Big, FromBig, Load, Load64;
    Powers();
    var s := EncodeHeader(h) + rest;
    assert s[..4] == Big(4, h.magic) && s[4] == h.version && s[5] == h.messageType && s[6..8] == Big(2, h.flags);
    assert s[8..12] == Big(4, h.metadataSize) && s[12..16] == Big(4, h.payloadSize) && s[16..24] == Big(8, h.requestId);
    FromBigInverts(4, h.magic);
    FromBigInverts(2, h.flags);
    FromBigInverts(4, h.metadataSize);
    FromBigInverts(4, h.payloadSize);
    FromBigInverts(8, h.requestId);
  }

  /** Only the encoding of a header decodes to it. */
  lemma {:induction false} EncodeInverts(little: bool, s: Bytes)
    requires Decode(little, s).Some?
    ensures |s| >= SIZE && EncodeHeader(Decode(little, s).value) == s[..SIZE]
  {
    BigInverts(s[..4]);
    BigInverts(s[6..8]);
    BigInverts(s[8..12]);
    BigInverts(s[12..16]);
    BigInverts(s[16..24]);
    assert s[..SIZE] == s[..4] + [s[4], s[5]] + s[6..8] + s[8..12] + s[12..16] + s[16..24];
  }
}
