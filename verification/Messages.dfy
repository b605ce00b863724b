/** The peer messages and their wire form (src/proto/message.rs). */
module Messages {
  type Byte = x: int | 0 <= x < 256
  type U16 = x: int | 0 <= x < 0x1_0000
  type U32 = x: int | 0 <= x < 0x1_0000_0000
  type Bytes = seq<Byte>

  const TWO32: int := 0x1_0000_0000
  const HANDSHAKE_ID: Byte := 19

  datatype PeerRequest = PeerRequest(index: U32, begin: U32, length: U32)

  datatype Handshake = Handshake(reserved: Bytes, infoHash: Bytes, peerId: Bytes)

  datatype PeerMessage =
    | KeepAlive
    | Choke
    | UnChoke
    | Interested
    | NotInterested
    | Have(have: U32)
    | Bitfield(bits: seq<bool>)
    | Request(request: PeerRequest)
    | Cancel(cancel: PeerRequest)
    | Piece(index: U32, begin: U32, block: Bytes)
    | HandshakeMsg(handshake: Handshake)
    | Port(port: U16)
  {
    /** The fixed-size arrays of a handshake: [u8; 8], [u8; 20], [u8; 20]. */
    predicate Sized() {
      HandshakeMsg? ==> |handshake.reserved| == 8 && |handshake.infoHash| == 20 && |handshake.peerId| == 20
    }
  }

  /** The protocol identifier "BitTorrent protocol". */
  const IDENTIFIER: Bytes :=
    [66, 105, 116, 84, 111, 114, 114, 101, 110, 116, 32, 112, 114, 111, 116, 111, 99, 111, 108]

  // ---------------------------------------------------------------- byte strings

  /** `part` is found in `data` at position `from`. */
  ghost predicate SliceIs(data: Bytes, from: int, part: Bytes) {
    0 <= from && from + |part| <= |data| && data[from..from + |part|] == part
  }

  lemma SliceByIndex(data: Bytes, from: nat, part: Bytes)
    ensures SliceIs(data, from, part)
         <==> from + |part| <= |data| && forall i :: 0 <= i < |part| ==> data[from + i] == part[i]
  {
    if SliceIs(data, from, part) {
      forall i | 0 <= i < |part|
        ensures data[from + i] == part[i]
      {
        assert data[from..from + |part|][i] == part[i];
      }
    }
  }

  // ---------------------------------------------------------------- integers

  /** A conversion to `u32`. */
  function Wrap32(n: nat): U32 {
    n % TWO32
  }

  lemma WrapSmall(n: nat)
    requires n < TWO32
    ensures Wrap32(n) == n
  {
  }

  lemma WrapAdd(a: nat, n: nat)
    ensures Wrap32(a + Wrap32(n)) == Wrap32(a + n)
  {
  }

  /** The last `width` base-256 digits of `n`, most significant first. */
  function BigEndian(n: nat, width: nat): (b: Bytes)
    ensures |b| == width
  {
    if width == 0 then [] else BigEndian(n / 256, width - 1) + [n % 256]
  }

  function ReadBigEndian(b: Bytes): (n: nat)
    ensures n < Pow256(|b|)
  {
    if b == [] then 0 else ReadBigEndian(b[..|b| - 1]) * 256 + b[|b| - 1]
  }

  function Pow256(n: nat): nat {
    if n == 0 then 1 else 256 * Pow256(n - 1)
  }

  lemma {:induction false} BigEndianRoundTrip(n: nat, width: nat)
    requires n < Pow256(width)
    ensures ReadBigEndian(BigEndian(n, width)) == n
  {
    if width > 0 {
      BigEndianRoundTrip(n / 256, width - 1);
      assert BigEndian(n, width)[..width - 1] == BigEndian(n / 256, width - 1);
    }
  }

  function U16Bytes(n: U16): Bytes {
    BigEndian(n, 2)
  }

  function U32Bytes(n: U32): Bytes {
    BigEndian(n, 4)
  }

  function ReadU16(b: Bytes): U16
    requires |b| >= 2
  {
    assert Pow256(2) == 0x1_0000;
    ReadBigEndian(b[..2])
  }

  function ReadU32(b: Bytes): U32
    requires |b| >= 4
  {
    assert Pow256(4) == 0x1_0000_0000;
    ReadBigEndian(b[..4])
  }

  lemma U32RoundTrip(n: U32)
    ensures ReadU32(U32Bytes(n)) == n
    ensures U32Bytes(n)[0] == n / 0x100_0000
  {
    assert Pow256(4) == 0x1_0000_0000;
    BigEndianRoundTrip(n, 4);
    assert U32Bytes(n)[..4] == U32Bytes(n);
    FirstDigit(n, 4);
    FirstDigit(n / 256, 3);
    FirstDigit(n / 256 / 256, 2);
    FirstDigit(n / 256 / 256 / 256, 1);
    hide BigEndian, ReadBigEndian, Pow256;
  }

  /** All but the last digit are the digits of the quotient. */
  lemma FirstDigit(n: nat, width: nat)
    requires width > 0
    ensures BigEndian(n, width)[0] == if width == 1 then n % 256 else BigEndian(n / 256, width - 1)[0]
  {
  }

  // ---------------------------------------------------------------- bit fields

  function Pow2(n: nat): nat {
    if n == 0 then 1 else 2 * Pow2(n - 1)
  }

  /** The number whose binary digits are `bits`, the first one most significant. */
  function PackBits(bits: seq<bool>): (r: nat)
    ensures r < Pow2(|bits|)
  {
    if bits == [] then 0
    else 2 * PackBits(bits[..|bits| - 1]) + (if bits[|bits| - 1] then 1 else 0)
  }

  /** The last `n` binary digits of `b`, most significant first. */
  function UnpackBits(b: nat, n: nat): (bits: seq<bool>)
    ensures |bits| == n
  {
    if n == 0 then [] else UnpackBits(b / 2, n - 1) + [b % 2 == 1]
  }

  lemma {:induction false} PackUnpack(bits: seq<bool>)
    ensures UnpackBits(PackBits(bits), |bits|) == bits
  {
    if bits != [] {
      PackUnpack(bits[..|bits| - 1]);
    }
  }

  /** Up to eight bits, the first one in the high-order position; absent bits are zero. */
  function PackByte(bits: seq<bool>): Byte
    requires |bits| <= 8
  {
    var padded := bits + seq(8 - |bits|, _ => false);
    assert Pow2(8) == 256;
    PackBits(padded)
  }

  /** `BitVec::to_bytes`. */
  function BitsToBytes(bits: seq<bool>): (b: Bytes)
    ensures |b| == (|bits| + 7) / 8
  {
    if bits == [] then []
    else if |bits| <= 8 then [PackByte(bits)]
    else [PackByte(bits[..8])] + BitsToBytes(bits[8..])
  }

  /** `BitVec::from_bytes`. */
  function BytesToBits(b: Bytes): (bits: seq<bool>)
    ensures |bits| == 8 * |b|
  {
    if b == [] then [] else UnpackBits(b[0], 8) + BytesToBits(b[1..])
  }

  lemma ByteRoundTrip(bits: seq<bool>)
    requires |bits| <= 8
    ensures UnpackBits(PackByte(bits), 8)[..|bits|] == bits
  {
    PackUnpack(bits + seq(8 - |bits|, _ => false));
  }

  /** Packing and unpacking a bit field, then dropping the padding, is the identity. */
  lemma {:induction false} BitsRoundTrip(bits: seq<bool>)
    ensures BytesToBits(BitsToBytes(bits))[..|bits|] == bits
  {
    var b := BitsToBytes(bits);
    if bits == [] {
    } else if |bits| <= 8 {
      ByteRoundTrip(bits);
      assert BytesToBits(b) == UnpackBits(b[0], 8) + BytesToBits([]);
    } else {
      ByteRoundTrip(bits[..8]);
      BitsRoundTrip(bits[8..]);
      assert b[1..] == BitsToBytes(bits[8..]);
      assert BytesToBits(b)[..|bits|] == UnpackBits(b[0], 8) + BytesToBits(b[1..])[..|bits| - 8];
      assert bits == bits[..8] + bits[8..];
    }
  }

  // ---------------------------------------------------------------- encoding

  /** The wire form of a message; the length prefix is computed in 32 bits and wraps. */
  function Encode(m: PeerMessage): Bytes {
    match m
    case KeepAlive => U32Bytes(0)
    case Choke => U32Bytes(1) + [0]
    case UnChoke => U32Bytes(1) + [1]
    case Interested => U32Bytes(1) + [2]
    case NotInterested => U32Bytes(1) + [3]
    case Have(i) => U32Bytes(5) + [4] + U32Bytes(i)
    case Bitfield(bits) => BitfieldBytes(bits)
    case Request(r) => U32Bytes(13) + [6] + RequestBytes(r)
    case Piece(i, b, block) => PieceBytes(i, b, block)
    case Cancel(r) => U32Bytes(13) + [8] + RequestBytes(r)
    case Port(p) => U32Bytes(3) + [9] + U16Bytes(p)
    case HandshakeMsg(h) => [HANDSHAKE_ID] + IDENTIFIER + h.reserved + h.infoHash + h.peerId
  }

  function BitfieldBytes(bits: seq<bool>): Bytes {
    U32Bytes(Wrap32(1 + |bits|)) + [5] + BitsToBytes(bits)
  }

  function PieceBytes(index: U32, begin: U32, block: Bytes): Bytes {
    U32Bytes(Wrap32(9 + |block|)) + [7] + U32Bytes(index) + U32Bytes(begin) + block
  }

  function RequestBytes(r: PeerRequest): Bytes {
    U32Bytes(r.index) + U32Bytes(r.begin) + U32Bytes(r.length)
  }

  /** `PeerMessage::len`: the number of bytes reserved for a message. */
  function Len(m: PeerMessage): nat {
    4 + match m
        case KeepAlive => 0
        case Choke => 1
        case UnChoke => 1
        case Interested => 1
        case NotInterested => 1
        case Have(_) => 1 + 4
        case Bitfield(bits) => 1 + |bits| / 8 + (if |bits| % 8 > 0 then 1 else 0)
        case Request(_) => 1 + 12
        case Cancel(_) => 1 + 12
        case Piece(_, _, block) => 1 + 8 + |block|
        case HandshakeMsg(_) => 45 + 19
        case Port(_) => 1 + 4
  }

  /** The reservation is exact for every message except Port, which reserves two bytes too many. */
  lemma LenIsExact(m: PeerMessage)
    requires m.Sized()
    ensures |Encode(m)| <= Len(m)
    ensures |Encode(m)| == Len(m) <==> !m.Port?
  {
    match m
    case Bitfield(bits) =>
      assert (|bits| + 7) / 8 == |bits| / 8 + (if |bits| % 8 > 0 then 1 else 0);
    case _ =>
  }

  /** `PeerMessage::as_bytes`: the fields are appended one by one to a buffer. */
  method AsBytes(m: PeerMessage) returns (buf: Bytes)
    ensures buf == Encode(m)
  {
    match m {
      case KeepAlive =>
        buf := U32Bytes(0);
      case Choke =>
        buf := U32Bytes(1);
        buf := buf + [0];
      case UnChoke =>
        buf := U32Bytes(1);
        buf := buf + [1];
      case Interested =>
        buf := U32Bytes(1);
        buf := buf + [2];
      case NotInterested =>
        buf := U32Bytes(1);
        buf := buf + [3];
      case Have(index) =>
        buf := U32Bytes(5);
        buf := buf + [4];
        buf := buf + U32Bytes(index);
      case Bitfield(bits) =>
        WrapAdd(1, |bits|);
        buf := U32Bytes(Wrap32(1 + Wrap32(|bits|)));
        buf := buf + [5];
        buf := buf + BitsToBytes(bits);
      case Request(r) =>
        buf := U32Bytes(13);
        buf := buf + [6];
        buf := buf + RequestBytes(r);
      case Piece(index, begin, block) =>
        WrapAdd(9, |block|);
        buf := U32Bytes(Wrap32(9 + Wrap32(|block|)));
        buf := buf + [7];
        buf := buf + U32Bytes(index);
        buf := buf + U32Bytes(begin);
        buf := buf + block;
      case Cancel(r) =>
        buf := U32Bytes(13);
        buf := buf + [8];
        buf := buf + RequestBytes(r);
      case Port(port) =>
        buf := U32Bytes(3);
        buf := buf + [9];
        buf := buf + U16Bytes(port);
      case HandshakeMsg(h) =>
        buf := [HANDSHAKE_ID];
        buf := buf + IDENTIFIER;
        buf := buf + h.reserved;
        buf := buf + h.infoHash;
        buf := buf + h.peerId;
    }
  }
}
