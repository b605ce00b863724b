/** The wire form of the messages, byte by byte, as section "peer messages" of BEP 3 lays it out, except that the length
    of a bit field counts bits (src/proto/message.rs, src/proto/codec.rs). */
module WireForms {
  import opened Messages
  import opened Codec

  // ---------------------------------------------------------------- numbers and bits

  /** The big-endian number at a position. */
  function Number(b: Bytes, at: nat): nat
    requires at + 4 <= |b|
  {
    b[at] as int * 0x100_0000 + b[at + 1] as int * 0x1_0000 + b[at + 2] as int * 0x100 + b[at + 3]
  }

  /** The weights of the bits of a byte, the high-order bit first. */
  const WEIGHTS: seq<nat> := [128, 64, 32, 16, 8, 4, 2, 1]

  predicate BitAt(x: Byte, k: nat)
    requires k < 8
  {
    x / WEIGHTS[k] % 2 == 1
  }

  lemma BigEndianStep(b: Bytes)
    requires b != []
    ensures ReadBigEndian(b) == 256 * ReadBigEndian(b[..|b| - 1]) + b[|b| - 1]
  {
  }

  lemma ReadFour(d: Bytes)
    requires |d| == 4
    ensures ReadBigEndian(d) == Number(d, 0)
  {
    hide ReadBigEndian;
    var d3, d2, d1 := d[..3], d[..2], d[..1];
    assert d3[..2] == d2 && d2[..1] == d1 && d1[..0] == [];
    BigEndianStep(d);
    BigEndianStep(d3);
    BigEndianStep(d2);
    BigEndianStep(d1);
    ReadNothing();
  }

  lemma ReadIsNumber(b: Bytes, at: nat)
    requires at + 4 <= |b|
    ensures ReadU32(b[at..at + 4]) == Number(b, at)
    ensures ReadU32(b[at..]) == Number(b, at)
  {
    var d := b[at..at + 4];
    assert d[..4] == d && b[at..][..4] == d;
    ReadFour(d);
    hide ReadBigEndian;
  }

  lemma ReadNothing()
    ensures ReadBigEndian([]) == 0
  {
  }

  lemma ReadIsNumber16(b: Bytes, at: nat)
    requires at + 2 <= |b|
    ensures ReadU16(b[at..]) == b[at] as int * 0x100 + b[at + 1]
  {
    var d := b[at..at + 2];
    assert b[at..][..2] == d;
    BigEndianStep(d);
    BigEndianStep(d[..1]);
    assert d[..1][..0] == [];
    ReadNothing();
    hide ReadBigEndian;
  }

  /** `x` halved `n` times. */
  function Halved(x: nat, n: nat): nat {
    if n == 0 then x else Halved(x, n - 1) / 2
  }

  lemma {:induction false} HalveFirst(x: nat, n: nat)
    ensures Halved(x / 2, n) == Halved(x, n + 1)
  {
    if n > 0 {
      HalveFirst(x, n - 1);
    }
  }

  lemma {:induction false} UnpackHalves(x: nat, n: nat, k: nat)
    requires k < n
    ensures UnpackBits(x, n)[k] <==> Halved(x, n - 1 - k) % 2 == 1
    decreases n
  {
    if k < n - 1 {
      UnpackHalves(x / 2, n - 1, k);
      HalveFirst(x, n - 2 - k);
    }
  }

  lemma HalvedIs(x: nat)
    ensures forall k :: 0 <= k < 8 ==> Halved(x, 7 - k) == x / WEIGHTS[k]
  {
    hide Halved;
    HalveOnce(x, 0);
    HalveOnce(x, 1);
    HalveOnce(x, 2);
    HalveOnce(x, 3);
    HalveOnce(x, 4);
    HalveOnce(x, 5);
    HalveOnce(x, 6);
  }

  lemma HalveOnce(x: nat, n: nat)
    ensures Halved(x, 0) == x && Halved(x, n + 1) == Halved(x, n) / 2
  {
  }

  lemma UnpackExact(x: Byte, k: nat)
    requires k < 8
    ensures UnpackBits(x, 8)[k] == BitAt(x, k)
  {
    UnpackHalves(x, 8, k);
    HalvedIs(x);
    hide UnpackBits, Halved;
  }

  lemma {:induction false} BitsExact(b: Bytes, k: nat)
    requires k < 8 * |b|
    ensures BytesToBits(b)[k] == BitAt(b[k / 8], k % 8)
    decreases |b|
  {
    if k < 8 {
      UnpackExact(b[0], k);
    } else {
      BitsExact(b[1..], k - 8);
      assert (k - 8) / 8 == k / 8 - 1 && (k - 8) % 8 == k % 8;
    }
  }

  // ---------------------------------------------------------------- the layout

  /** The bytes are the characters of the text. */
  predicate Text(b: Bytes, text: string) {
    |b| == |text| && forall i :: 0 <= i < |text| ==> b[i] == text[i] as int
  }

  /** A frame with an identifier: the length of what follows, then the identifier. */
  predicate Framed(b: Bytes, id: Byte) {
    |b| >= 5 && Number(b, 0) == |b| - 4 && b[4] == id
  }

  /** Three numbers behind the identifier. */
  predicate SpellsRequest(b: Bytes, r: PeerRequest) {
    |b| >= 17 && Number(b, 5) == r.index && Number(b, 9) == r.begin && Number(b, 13) == r.length
  }

  /** The length in bits, and bit `k` in byte `k / 8`, the high-order bit first. */
  predicate SpellsBits(b: Bytes, bits: seq<bool>) {
    && |b| == 5 + (|bits| + 7) / 8 && Number(b, 0) == 1 + |bits| && b[4] == 5
    && forall k :: 0 <= k < |bits| ==> (BitAt(b[5 + k / 8], k % 8) <==> bits[k])
  }

  predicate SpellsHandshake(b: Bytes, h: Handshake) {
    && |b| == 68 && b[0] == 19 && Text(b[1..20], "BitTorrent protocol")
    && b[20..28] == h.reserved && b[28..48] == h.infoHash && b[48..68] == h.peerId
  }

  /** The bytes are the wire form of the message. The decoder also takes frames with bytes behind the fields of a
      request, cancel or port message. */
  predicate Spells(b: Bytes, m: PeerMessage) {
    match m
    case KeepAlive => |b| == 4 && Number(b, 0) == 0
    case Choke => |b| == 5 && Framed(b, 0)
    case UnChoke => |b| == 5 && Framed(b, 1)
    case Interested => |b| == 5 && Framed(b, 2)
    case NotInterested => |b| == 5 && Framed(b, 3)
    case Have(i) => |b| == 9 && Framed(b, 4) && Number(b, 5) == i
    case Bitfield(bits) => SpellsBits(b, bits)
    case Request(r) => Framed(b, 6) && SpellsRequest(b, r)
    case Piece(i, begin, block) =>
      Framed(b, 7) && |b| == 13 + |block| && Number(b, 5) == i && Number(b, 9) == begin && b[13..] == block
    case Cancel(r) => Framed(b, 8) && SpellsRequest(b, r)
    case Port(port) => Framed(b, 9) && |b| >= 7 && b[5] as int * 0x100 + b[6] == port
    case HandshakeMsg(h) => SpellsHandshake(b, h)
  }

  lemma IdentifierIsText(b: Bytes)
    ensures b == IDENTIFIER <==> Text(b, "BitTorrent protocol")
  {
    assert Text(IDENTIFIER, "BitTorrent protocol");
  }

  // ---------------------------------------------------------------- encoding

  lemma NumberAt(a: Bytes, n: U32, rest: Bytes)
    ensures Number(a + U32Bytes(n) + rest, |a|) == n
  {
    hide U32Bytes, ReadU32, Number;
    FieldIsRead(a, n, rest);
    FourBytes(n);
    ReadIsNumber(a + U32Bytes(n) + rest, |a|);
  }

  lemma PrefixNumber(n: U32, rest: Bytes)
    ensures |U32Bytes(n)| == 4 && Number(U32Bytes(n) + rest, 0) == n
  {
    hide U32Bytes, Number;
    FourBytes(n);
    NumberAt([], n, rest);
    assert [] + U32Bytes(n) + rest == U32Bytes(n) + rest;
  }

  /** The three fields of a request. */
  lemma RequestSpelled(head: Bytes, r: PeerRequest)
    requires |head| == 5
    ensures |head + RequestBytes(r)| == 17 && SpellsRequest(head + RequestBytes(r), r)
  {
    hide U32Bytes, Number;
    var b := head + RequestBytes(r);
    var x, y, z := U32Bytes(r.index), U32Bytes(r.begin), U32Bytes(r.length);
    FourBytes(r.index);
    FourBytes(r.begin);
    FourBytes(r.length);
    NumberAt(head, r.index, y + z);
    NumberAt(head + x, r.begin, z);
    NumberAt(head + x + y, r.length, []);
    assert b == head + x + (y + z) && b == head + x + y + z && b == head + x + y + z + [];
  }

  lemma BitfieldSpelled(bits: seq<bool>)
    requires 1 + |bits| < TWO32
    ensures SpellsBits(BitfieldBytes(bits), bits)
  {
    hide U32Bytes, Number, BitsToBytes, BytesToBits, BitAt;
    var body := BitsToBytes(bits);
    var b := BitfieldBytes(bits);
    WrapSmall(1 + |bits|);
    PrefixNumber(1 + |bits|, [5] + body);
    assert b == U32Bytes(1 + |bits|) + ([5] + body);
    BitsRoundTrip(bits);
    forall k | 0 <= k < |bits|
      ensures BitAt(b[5 + k / 8], k % 8) <==> bits[k]
    {
      BitsExact(body, k);
      assert b[5 + k / 8] == body[k / 8];
      assert BytesToBits(body)[..|bits|][k] == bits[k];
    }
  }

  lemma PieceSpelled(index: U32, begin: U32, block: Bytes)
    requires 9 + |block| < TWO32
    ensures Spells(PieceBytes(index, begin, block), Piece(index, begin, block))
  {
    hide U32Bytes, Number;
    var n := 9 + |block|;
    var b, x, y := PieceBytes(index, begin, block), U32Bytes(index), U32Bytes(begin);
    WrapSmall(n);
    FourBytes(index);
    FourBytes(begin);
    PrefixNumber(n, [7] + x + y + block);
    var head := U32Bytes(n) + [7];
    assert b == U32Bytes(n) + ([7] + x + y + block);
    NumberAt(head, index, y + block);
    NumberAt(head + x, begin, block);
    assert b == head + x + (y + block) && b == head + x + y + block;
    assert b[13..] == block;
  }

  lemma PlainSpelled(m: PeerMessage)
    requires !m.Bitfield? && !m.Piece? && !m.HandshakeMsg? && !m.Request? && !m.Cancel?
    ensures Spells(Encode(m), m) && (m.Port? ==> |Encode(m)| == 7)
  {
    var b := Encode(m);
    if m.KeepAlive? {
      PrefixNumber(0, []);
      assert b == U32Bytes(0) + [];
    } else if m.Have? {
      PrefixNumber(5, [4] + U32Bytes(m.have));
      assert b == U32Bytes(5) + ([4] + U32Bytes(m.have));
      NumberAt(U32Bytes(5) + [4], m.have, []);
      assert b == U32Bytes(5) + [4] + U32Bytes(m.have) + [];
    } else if m.Port? {
      PrefixNumber(3, [9] + U16Bytes(m.port));
      assert b == U32Bytes(3) + ([9] + U16Bytes(m.port));
      PortNumber(m.port);
    } else {
      PrefixNumber(1, [b[4]]);
      assert b == U32Bytes(1) + [b[4]];
    }
  }

  lemma PortNumber(port: U16)
    ensures |U16Bytes(port)| == 2 && U16Bytes(port)[0] as int * 0x100 + U16Bytes(port)[1] == port
  {
    assert U16Bytes(port) == BigEndian(port / 256, 1) + [port % 256];
    assert BigEndian(port / 256, 1) == BigEndian(port / 256 / 256, 0) + [port / 256 % 256];
  }

  /** Every message whose length fits its prefix is written as it should be spelled, and no longer than that. */
  lemma EncodeSpells(m: PeerMessage)
    requires m.Sized() && (m.Bitfield? ==> 1 + |m.bits| < TWO32) && (m.Piece? ==> 9 + |m.block| < TWO32)
    ensures Spells(Encode(m), m)
    ensures (m.Request? || m.Cancel? ==> |Encode(m)| == 17) && (m.Port? ==> |Encode(m)| == 7)
  {
    hide Spells, Encode;
    if m.Bitfield? {
      BitfieldSpelled(m.bits);
      EncodesBitfield(m);
    } else if m.Piece? {
      PieceSpelled(m.index, m.begin, m.block);
      EncodesPiece(m);
    } else if m.Request? || m.Cancel? {
      AskSpelled(m);
    } else if m.HandshakeMsg? {
      HandshakeSpelled(m);
    } else {
      PlainSpelled(m);
    }
  }

  lemma EncodesBitfield(m: PeerMessage)
    requires m.Bitfield?
    ensures Encode(m) == BitfieldBytes(m.bits) && (SpellsBits(Encode(m), m.bits) ==> Spells(Encode(m), m))
  {
  }

  lemma EncodesPiece(m: PeerMessage)
    requires m.Piece?
    ensures Encode(m) == PieceBytes(m.index, m.begin, m.block)
  {
  }

  lemma AskSpelled(m: PeerMessage)
    requires m.Request? || m.Cancel?
    ensures Spells(Encode(m), m) && |Encode(m)| == 17
  {
    hide U32Bytes, Number, RequestBytes;
    var r, id: Byte := if m.Request? then m.request else m.cancel, if m.Request? then 6 else 8;
    PrefixNumber(13, [id] + RequestBytes(r));
    var head := U32Bytes(13) + [id];
    assert Encode(m) == head + RequestBytes(r) == U32Bytes(13) + ([id] + RequestBytes(r));
    RequestSpelled(head, r);
  }

  lemma HandshakeSpelled(m: PeerMessage)
    requires m.HandshakeMsg? && m.Sized()
    ensures Spells(Encode(m), m)
  {
    var b, h := Encode(m), m.handshake;
    IdentifierIsText(IDENTIFIER);
    assert b[1..20] == IDENTIFIER && b[20..28] == h.reserved && b[28..48] == h.infoHash && b[48..68] == h.peerId;
    hide Text;
  }

  // ---------------------------------------------------------------- decoding

  /** The bytes at the front leave no choice: the first byte says whether it is a handshake, and a length of 1 or 5
      means a message without fields or a Have. */
  predicate Unambiguous(src: Bytes, m: PeerMessage) {
    && |src| >= 4
    && (src[0] == 19 <==> m.HandshakeMsg?)
    && (!m.HandshakeMsg? && Number(src, 0) == 5 ==> m.Have?)
    && !(m.Bitfield? && m.bits == [])
  }

  lemma FrontNumber(src: Bytes, n: nat, at: nat)
    requires at + 4 <= n <= |src|
    ensures Number(src[..n], at) == Number(src, at)
  {
  }

  /** The bits that the decoder reads. */
  lemma BitsSpelled(src: Bytes, count: nat)
    requires count > 0 && |src| >= 5 + (count + 7) / 8 && src[4] == 5 && Number(src, 0) == 1 + count
    ensures var total := 5 + (count + 7) / 8;
            var bits := BytesToBits(src[5..total])[..count];
            && SpellsBits(src[..total], bits)
            && forall other :: SpellsBits(src[..total], other) && |other| == count ==> other == bits
  {
    hide Number, BytesToBits, BitAt;
    var total := 5 + (count + 7) / 8;
    var body := src[5..total];
    var bits := BytesToBits(body)[..count];
    FrontNumber(src, total, 0);
    forall k | 0 <= k < count
      ensures BitAt(src[..total][5 + k / 8], k % 8) <==> bits[k]
    {
      BitsExact(body, k);
      assert src[..total][5 + k / 8] == body[k / 8];
    }
    forall other | SpellsBits(src[..total], other) && |other| == count
      ensures other == bits
    {
      assert forall k :: 0 <= k < count ==> other[k] == bits[k];
    }
  }

  /** The numbers of a frame, as the decoder reads them. */
  lemma FieldsRead(b: Bytes)
    ensures |b| >= 7 ==> ReadU16(b[5..]) == b[5] as int * 0x100 + b[6]
    ensures |b| >= 9 ==> ReadU32(b[5..9]) == Number(b, 5)
    ensures |b| >= 13 ==> ReadU32(b[9..13]) == Number(b, 9)
    ensures |b| >= 17 ==> ReadU32(b[13..17]) == Number(b, 13)
  {
    hide Number, ReadU32, ReadU16;
    if |b| >= 7 {
      ReadIsNumber16(b, 5);
    }
    if |b| >= 9 {
      ReadIsNumber(b, 5);
    }
    if |b| >= 13 {
      ReadIsNumber(b, 9);
    }
    if |b| >= 17 {
      ReadIsNumber(b, 13);
    }
  }

  lemma PayloadSound(src: Bytes, n: nat)
    requires 5 <= n <= |src| && Number(src, 0) == n - 4 && src[4] in {6, 7, 8, 9}
    ensures var r := DecodePayload(src[4], src[..n], src, src[n..]);
            && (r.result.Decoded? ==> r.rest == src[n..] && Spells(src[..n], r.result.msg))
            && !r.result.NeedMore? && !r.result.InvalidData?
  {
    FrontNumber(src, n, 0);
    hide Number, ReadU32, ReadU16, SpellsBits, SpellsHandshake;
    FieldsRead(src[..n]);
  }

  lemma PayloadComplete(src: Bytes, n: nat, m: PeerMessage)
    requires 5 <= n <= |src| && src[4] in {6, 7, 8, 9}
    requires Spells(src[..n], m) && Framed(src[..n], src[4]) && !m.Bitfield? && !m.HandshakeMsg?
    ensures DecodePayload(src[4], src[..n], src, src[n..]) == Frame(Decoded(m), src[n..])
  {
    hide Number, ReadU32, ReadU16;
    FieldsRead(src[..n]);
  }

  lemma HandshakeExact(src: Bytes, m: PeerMessage, n: nat)
    requires 4 <= |src| && src[0] == 19 && n <= |src|
    ensures DecodeFrame(src) == Frame(Decoded(m), src[n..]) <==> Spells(src[..n], m) && Unambiguous(src, m)
  {
    hide Number;
    if |src| >= 68 {
      IdentifierIsText(src[1..20]);
      assert n == 68 ==> src[..n][1..20] == src[1..20] && src[..n][20..28] == src[20..28]
                         && src[..n][28..48] == src[28..48] && src[..n][48..68] == src[48..68];
      SuffixLength(src, 68, n);
    }
  }

  /** Suffixes of different lengths differ. */
  lemma SuffixLength(src: Bytes, a: nat, b: nat)
    requires a <= |src| && b <= |src|
    ensures src[a..] == src[b..] <==> a == b
  {
    assert |src[a..]| == |src| - a && |src[b..]| == |src| - b;
  }

  lemma StateExact(src: Bytes, m: PeerMessage, n: nat)
    requires 4 <= |src| && src[0] != 19 && n <= |src| && Number(src, 0) in {0, 1}
    ensures DecodeFrame(src) == Frame(Decoded(m), src[n..]) <==> Spells(src[..n], m) && Unambiguous(src, m)
  {
    ReadIsNumber(src, 0);
    assert src[0..] == src;
    if n >= 4 {
      FrontNumber(src, n, 0);
    }
    SuffixLength(src, 4, n);
    if |src| >= 5 {
      SuffixLength(src, 5, n);
    }
    hide Number, ReadU32, BitAt, SpellsHandshake;
  }

  lemma HaveExact(src: Bytes, m: PeerMessage, n: nat)
    requires 4 <= |src| && src[0] != 19 && n <= |src| && Number(src, 0) == 5
    ensures DecodeFrame(src) == Frame(Decoded(m), src[n..]) <==> Spells(src[..n], m) && Unambiguous(src, m)
  {
    ReadIsNumber(src, 0);
    assert src[0..] == src;
    if n >= 4 {
      FrontNumber(src, n, 0);
    }
    if |src| >= 9 {
      SuffixLength(src, 9, n);
      ReadIsNumber(src, 5);
      FrontNumber(src, 9, 5);
    }
    hide Number, ReadU32, BitAt, SpellsHandshake;
  }

  /** Bytes with the identifier of a bit field spell nothing else. */
  lemma OnlyBits(src: Bytes, m: PeerMessage, n: nat)
    requires 5 <= |src| && src[0] != 19 && src[4] == 5 && n <= |src| && Number(src, 0) !in {0, 1, 5}
    requires Spells(src[..n], m)
    ensures m.Bitfield? && n == 5 + (|m.bits| + 7) / 8 && Number(src, 0) == 1 + |m.bits|
  {
    if n >= 4 {
      FrontNumber(src, n, 0);
    }
    hide Number, BitAt;
  }

  /** What the decoder makes of such bytes. */
  lemma BitfieldDecoded(src: Bytes)
    requires 5 <= |src| && src[0] != 19 && src[4] == 5 && Number(src, 0) !in {0, 1, 5}
    ensures var count := Number(src, 0) - 1;
            var total := 5 + (count + 7) / 8;
            DecodeFrame(src) == if |src| < total then Frame(NeedMore, src)
                                else Frame(Decoded(Bitfield(BytesToBits(src[5..total])[..count])), src[total..])
  {
    ReadIsNumber(src, 0);
    assert src[0..] == src;
    var count := Number(src, 0) - 1;
    assert count / 8 + (if count % 8 > 0 then 1 else 0) == (count + 7) / 8;
    hide Number, ReadU32, BytesToBits, DecodePayload;
  }

  lemma BitfieldExact(src: Bytes, m: PeerMessage, n: nat)
    requires 5 <= |src| && src[0] != 19 && src[4] == 5 && n <= |src| && Number(src, 0) !in {0, 1, 5}
    ensures DecodeFrame(src) == Frame(Decoded(m), src[n..]) <==> Spells(src[..n], m) && Unambiguous(src, m)
  {
    hide DecodeFrame, BytesToBits, SpellsBits, Number;
    var count := Number(src, 0) - 1;
    var total := 5 + (count + 7) / 8;
    BitfieldDecoded(src);
    if |src| >= total {
      BitsSpelled(src, count);
      SuffixLength(src, total, n);
    }
    if Spells(src[..n], m) {
      OnlyBits(src, m, n);
    }
  }

  /** Bytes with another identifier and a length other than 0, 1 and 5 spell one of four kinds. */
  lemma OnlyFrame(src: Bytes, m: PeerMessage, n: nat)
    requires 5 <= |src| && src[0] != 19 && src[4] != 5 && n <= |src| && Number(src, 0) !in {0, 1, 5}
    requires Spells(src[..n], m)
    ensures n == 4 + Number(src, 0) && src[4] in {6, 7, 8, 9} && Framed(src[..n], src[4])
    ensures !m.Bitfield? && !m.HandshakeMsg? && Unambiguous(src, m)
  {
    if n >= 4 {
      FrontNumber(src, n, 0);
    }
    hide Number, BitAt;
  }

  /** What the decoder makes of such bytes. */
  lemma FrameDecoded(src: Bytes)
    requires 5 <= |src| && src[0] != 19 && src[4] != 5 && Number(src, 0) !in {0, 1, 5}
    ensures var total := 4 + Number(src, 0);
            DecodeFrame(src)
            == if |src| < total then Frame(NeedMore, src)
               else if src[4] in {6, 7, 8, 9} then DecodePayload(src[4], src[..total], src, src[total..])
               else Frame(InvalidData, src)
  {
    ReadIsNumber(src, 0);
    assert src[0..] == src;
    hide Number, ReadU32, ReadU16;
  }

  lemma GenericExact(src: Bytes, m: PeerMessage, n: nat)
    requires 5 <= |src| && src[0] != 19 && src[4] != 5 && n <= |src| && Number(src, 0) !in {0, 1, 5}
    ensures DecodeFrame(src) == Frame(Decoded(m), src[n..]) <==> Spells(src[..n], m) && Unambiguous(src, m)
  {
    hide DecodeFrame, DecodePayload, Spells, Unambiguous, Number, Framed;
    var total := 4 + Number(src, 0);
    FrameDecoded(src);
    if Spells(src[..n], m) {
      OnlyFrame(src, m, n);
      PayloadComplete(src, n, m);
    }
    if |src| >= total {
      SuffixLength(src, total, n);
      if src[4] in {6, 7, 8, 9} {
        PayloadSound(src, total);
      }
    }
  }

  /** The decoder yields a message if and only if the bytes at the front spell it and leave no other choice. */
  lemma DecodeExact(src: Bytes, m: PeerMessage, n: nat)
    requires n <= |src|
    ensures DecodeFrame(src) == Frame(Decoded(m), src[n..]) <==> Spells(src[..n], m) && Unambiguous(src, m)
  {
    hide DecodeHandshake, DecodeStateChange, DecodeHave, DecodeBitfield, DecodePayload, SpellsBits;
    if |src| < 4 {
    } else if src[0] == 19 {
      HandshakeExact(src, m, n);
    } else if Number(src, 0) in {0, 1} {
      StateExact(src, m, n);
    } else if Number(src, 0) == 5 {
      HaveExact(src, m, n);
    } else if |src| == 4 {
      BareExact(src, m, n);
    } else if src[4] == 5 {
      BitfieldExact(src, m, n);
    } else {
      GenericExact(src, m, n);
    }
  }

  lemma BareExact(src: Bytes, m: PeerMessage, n: nat)
    requires |src| == 4 && src[0] != 19 && n <= 4 && Number(src, 0) !in {0, 1, 5}
    ensures !DecodeFrame(src).result.Decoded? && !(Spells(src[..n], m) && Unambiguous(src, m))
  {
    ReadIsNumber(src, 0);
    assert src[0..] == src;
    if n == 4 {
      assert src[..n] == src;
    }
    hide Number, ReadU32;
  }

  /** The decoder rejects a buffer if and only if it starts like a handshake with another protocol, or is a whole frame
      with an identifier that does not exist for its length. */
  lemma RejectExact(src: Bytes)
    ensures DecodeFrame(src).result.InvalidData? <==>
              && |src| >= 4
              && if src[0] == 19 then |src| >= 68 && !Text(src[1..20], "BitTorrent protocol")
                 else
                   var length := Number(src, 0);
                   || (length == 1 && |src| >= 5 && src[4] > 3)
                   || (length == 5 && |src| >= 9 && src[4] != 4)
                   || (length !in {0, 1, 5} && |src| >= 4 + length && (src[4] < 5 || src[4] > 9))
  {
    if |src| >= 4 {
      ReadIsNumber(src, 0);
      assert src[0..] == src;
      if |src| >= 20 {
        IdentifierIsText(src[1..20]);
      }
    }
    hide Number, ReadU32, ReadU16, BytesToBits, Text;
  }

  /** The decoder panics if and only if it has just the four length bytes of a message other than those of length 0, 1
      and 5, or a whole frame that is too short for the fields of its identifier. */
  lemma DecodePanicExact(src: Bytes)
    ensures DecodeFrame(src).result.Panicked? <==>
              && |src| >= 4 && src[0] != 19
              && var length := Number(src, 0);
                 && length !in {0, 1, 5}
                 && (|src| == 4
                     || (|src| >= 4 + length
                         && ((src[4] in {6, 8} && length < 13) || (src[4] == 7 && length < 9)
                             || (src[4] == 9 && length < 3))))
  {
    if |src| >= 4 {
      ReadIsNumber(src, 0);
      assert src[0..] == src;
    }
    hide Number, ReadU32, ReadU16, BytesToBits;
  }
}
