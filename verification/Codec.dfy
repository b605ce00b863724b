/** The incremental decoder and the encoder of src/proto/codec.rs. */
module Codec {
  import opened Collections
  import opened Messages

  /** Where the decoder can index outside its buffer. */
  datatype PanicSite = AtIdByte | InPayload

  datatype DecodeResult =
    | NeedMore
    | Decoded(msg: PeerMessage)
    | InvalidData
    | Panicked(site: PanicSite)

  /** The result of one call and the bytes it leaves in the buffer. */
  datatype Frame = Frame(result: DecodeResult, rest: Bytes)

  // ---------------------------------------------------------------- specification of decode

  function DecodeFrame(src: Bytes): Frame {
    if |src| < 4 then Frame(NeedMore, src)
    else if src[0] == HANDSHAKE_ID then DecodeHandshake(src)
    else
      var length := ReadU32(src);
      if length == 0 then Frame(Decoded(KeepAlive), src[4..])
      else if length == 1 then DecodeStateChange(src)
      else if length == 5 then DecodeHave(src)
      else if |src| == 4 then Frame(Panicked(AtIdByte), src)
      else if src[4] == 5 then DecodeBitfield(src, length)
      else if |src| < 4 + length then Frame(NeedMore, src)
      else DecodePayload(src[4], src[..4 + length], src, src[4 + length..])
  }

  function DecodeHandshake(src: Bytes): Frame
    requires |src| >= 4
  {
    if |src| < 68 then Frame(NeedMore, src)
    else if src[1..20] != IDENTIFIER then Frame(InvalidData, src)
    else Frame(Decoded(HandshakeMsg(Handshake(src[20..28], src[28..48], src[48..68]))), src[68..])
  }

  function DecodeStateChange(src: Bytes): Frame
    requires |src| >= 4
  {
    if |src| < 5 then Frame(NeedMore, src)
    else if src[4] == 0 then Frame(Decoded(Choke), src[5..])
    else if src[4] == 1 then Frame(Decoded(UnChoke), src[5..])
    else if src[4] == 2 then Frame(Decoded(Interested), src[5..])
    else if src[4] == 3 then Frame(Decoded(NotInterested), src[5..])
    else Frame(InvalidData, src)
  }

  function DecodeHave(src: Bytes): Frame
    requires |src| >= 4
  {
    if |src| < 9 then Frame(NeedMore, src)
    else if src[4] == 4 then Frame(Decoded(Have(ReadU32(src[5..9]))), src[9..])
    else Frame(InvalidData, src)
  }

  /** The length prefix of a bit field counts bits, not bytes. */
  function DecodeBitfield(src: Bytes, length: nat): Frame
    requires |src| > 4 && length > 1
  {
    var count := length - 1;
    var total := count / 8 + (if count % 8 > 0 then 1 else 0) + 5;
    if |src| < total then Frame(NeedMore, src)
    else Frame(Decoded(Bitfield(BytesToBits(src[5..total])[..count])), src[total..])
  }

  /** `msg` is the whole frame, already split off; an unknown id leaves the buffer alone. */
  function DecodePayload(id: Byte, msg: Bytes, src: Bytes, rest: Bytes): Frame {
    if id == 6 || id == 8 then
      if |msg| < 17 then Frame(Panicked(InPayload), rest)
      else
        var r := PeerRequest(ReadU32(msg[5..9]), ReadU32(msg[9..13]), ReadU32(msg[13..17]));
        Frame(Decoded(if id == 6 then Request(r) else Cancel(r)), rest)
    else if id == 7 then
      if |msg| < 13 then Frame(Panicked(InPayload), rest)
      else Frame(Decoded(Piece(ReadU32(msg[5..9]), ReadU32(msg[9..13]), msg[13..])), rest)
    else if id == 9 then
      if |msg| < 7 then Frame(Panicked(InPayload), rest)
      else Frame(Decoded(Port(ReadU16(msg[5..]))), rest)
    else Frame(InvalidData, src)
  }

  // ---------------------------------------------------------------- the codec

  class BytesMut {
    var data: Bytes

    constructor (bytes: Bytes)
      ensures data == bytes
    {
      data := bytes;
    }

    method SplitTo(n: nat) returns (head: Bytes)
      requires n <= |data|
      modifies this
      ensures head == old(data)[..n] && data == old(data)[n..]
    {
      head := data[..n];
      data := data[n..];
    }

    method Advance(n: nat)
      requires n <= |data|
      modifies this
      ensures data == old(data)[n..]
    {
      data := data[n..];
    }
  }

  class PeerWireCodec {
    constructor () {}

    /** One call of `decode` takes at most one frame off the front of the buffer. */
    method Decode(src: BytesMut) returns (r: DecodeResult)
      modifies src
      ensures Frame(r, src.data) == DecodeFrame(old(src.data))
    {
      if |src.data| < 4 {
        return NeedMore;
      }
      if src.data[0] == HANDSHAKE_ID {
        if |src.data| < 68 {
          return NeedMore;
        }
        if src.data[1..20] != IDENTIFIER {
          return InvalidData;
        }
        ghost var all := src.data;
        var msg := src.SplitTo(68);
        msg := msg[20..];
        assert msg == all[20..68];
        SliceOfSlice(all, 20, 68, 0, 8);
        SliceOfSlice(all, 20, 68, 8, 28);
        SliceOfSlice(all, 20, 68, 28, 48);
        return Decoded(HandshakeMsg(Handshake(msg[0..8], msg[8..28], msg[28..48])));
      }
      var length := ReadU32(src.data[0..4]);
      assert src.data[0..4][..4] == src.data[..4];
      if length == 0 {
        src.Advance(4);
        return Decoded(KeepAlive);
      } else if length == 1 {
        r := DecodeLength1(src);
      } else if length == 5 {
        if |src.data| < 9 {
          return NeedMore;
        }
        if src.data[4] == 4 {
          SliceOfSlice(src.data, 0, 9, 5, 9);
          var msg := src.SplitTo(9);
          return Decoded(Have(ReadU32(msg[5..9])));
        }
        return InvalidData;
      } else {
        r := DecodeGeneric(src, length);
      }
    }

    method DecodeLength1(src: BytesMut) returns (r: DecodeResult)
      requires |src.data| >= 4
      modifies src
      ensures Frame(r, src.data) == DecodeStateChange(old(src.data))
    {
      if |src.data| < 5 {
        return NeedMore;
      }
      var id := src.data[4];
      if id == 0 {
        r := Decoded(Choke);
      } else if id == 1 {
        r := Decoded(UnChoke);
      } else if id == 2 {
        r := Decoded(Interested);
      } else if id == 3 {
        r := Decoded(NotInterested);
      } else {
        return InvalidData;
      }
      src.Advance(5);
    }

    /** The arm for every other length; the identifier is read before its presence is known. */
    method DecodeGeneric(src: BytesMut, length: U32) returns (r: DecodeResult)
      requires |src.data| >= 4 && src.data[0] != HANDSHAKE_ID
      requires length == ReadU32(src.data) && length != 0 && length != 1 && length != 5
      modifies src
      ensures Frame(r, src.data) == DecodeFrame(old(src.data))
    {
      if |src.data| == 4 {
        return Panicked(AtIdByte);
      }
      if src.data[4] == 5 {
        var count := length - 1;
        var byteCount := count / 8;
        if count % 8 > 0 {
          byteCount := byteCount + 1;
        }
        var total := byteCount + 5;
        if |src.data| < total {
          return NeedMore;
        }
        var msg := src.SplitTo(total);
        assert msg[5..] == old(src.data)[5..total];
        return Decoded(Bitfield(BytesToBits(msg[5..])[..count]));
      }
      var total := 4 + length;
      if |src.data| < total {
        return NeedMore;
      }
      var id := src.data[4];
      if id != 6 && id != 7 && id != 8 && id != 9 {
        return InvalidData;
      }
      ghost var before := src.data;
      var msg := src.SplitTo(total);
      r := ParsePayload(id, msg, before, src.data);
    }

    method ParsePayload(id: Byte, msg: Bytes, ghost src: Bytes, ghost rest: Bytes) returns (r: DecodeResult)
      requires id == 6 || id == 7 || id == 8 || id == 9
      ensures Frame(r, rest) == DecodePayload(id, msg, src, rest)
    {
      if id == 6 || id == 8 {
        if |msg| < 17 {
          return Panicked(InPayload);
        }
        var request := PeerRequest(ReadU32(msg[5..9]), ReadU32(msg[9..13]), ReadU32(msg[13..17]));
        return Decoded(if id == 6 then Request(request) else Cancel(request));
      } else if id == 7 {
        if |msg| < 13 {
          return Panicked(InPayload);
        }
        return Decoded(Piece(ReadU32(msg[5..9]), ReadU32(msg[9..13]), msg[13..]));
      } else {
        if |msg| < 7 {
          return Panicked(InPayload);
        }
        return Decoded(Port(ReadU16(msg[5..])));
      }
    }

    /** `encode` appends the wire form to the destination buffer. */
    method EncodeTo(item: PeerMessage, dst: BytesMut)
      modifies dst
      ensures dst.data == old(dst.data) + Encode(item)
    {
      var data := AsBytes(item);
      dst.data := dst.data + data;
    }
  }

  // ---------------------------------------------------------------- one message

  /** The messages whose wire form decodes back to them. A bit field of 0 or 4 bits is taken
      for a message of length 1 or 5; a length prefix that starts with 19 is taken for a handshake; a
      length of 2^32 or more does not fit the prefix. */
  predicate WireSafe(m: PeerMessage) {
    match m
    case Bitfield(bits) => |bits| != 0 && |bits| != 4 && SafePrefix(1 + |bits|)
    case Piece(_, _, block) => SafePrefix(9 + |block|)
    case _ => true
  }

  predicate SafePrefix(n: nat) {
    n < TWO32 && n / 0x100_0000 != HANDSHAKE_ID
  }

  lemma PrefixIsRead(n: U32, tail: Bytes)
    ensures var src := U32Bytes(n) + tail;
            ReadU32(src) == n && src[0] == n / 0x100_0000 && src[4..] == tail
  {
    U32RoundTrip(n);
    assert (U32Bytes(n) + tail)[..4] == U32Bytes(n)[..4];
  }

  lemma FieldIsRead(a: Bytes, n: U32, b: Bytes)
    ensures var src := a + U32Bytes(n) + b;
            ReadU32(src[|a|..|a| + 4]) == n
  {
    var src := a + U32Bytes(n) + b;
    assert src[|a|..|a| + 4] == U32Bytes(n);
    U32RoundTrip(n);
  }

  /** A frame with an unlucky first byte is taken for a handshake, whatever follows. */
  lemma MarkerWins(src: Bytes)
    requires |src| >= 4 && src[0] == HANDSHAKE_ID
    ensures var r := DecodeFrame(src).result; r.Decoded? ==> r.msg.HandshakeMsg?
  {
  }

  lemma BitfieldBody(src: Bytes, bits: seq<bool>, rest: Bytes)
    requires |src| >= 5 && |bits| > 0
    requires src[5..] == BitsToBytes(bits) + rest
    ensures DecodeBitfield(src, 1 + |bits|) == Frame(Decoded(Bitfield(bits)), rest)
  {
    hide BitsToBytes, BytesToBits;
    var body := BitsToBytes(bits);
    var total := 5 + |body|;
    assert |bits| / 8 + (if |bits| % 8 > 0 then 1 else 0) == |body|;
    var b := src[5..total];
    assert b == src[5..][..|body|] == body;
    assert src[total..] == src[5..][|body|..] == rest;
    BitsRoundTrip(bits);
  }

  /** With the identifier of a bit field, the decoder takes the bit field arm unless the length is 0, 1 or 5. */
  lemma BitfieldArm(src: Bytes)
    requires |src| >= 5 && src[0] != HANDSHAKE_ID && src[4] == 5
    ensures var n := ReadU32(src);
            if n > 1 && n != 5 then DecodeFrame(src) == DecodeBitfield(src, n)
            else forall bits :: DecodeFrame(src).result != Decoded(Bitfield(bits))
  {
    hide ReadU32, DecodeBitfield;
  }

  lemma BitfieldCount(src: Bytes, n: nat, bits: seq<bool>)
    requires |src| >= 5 && n > 1 && DecodeBitfield(src, n).result == Decoded(Bitfield(bits))
    ensures n == 1 + |bits|
  {
    hide BytesToBits;
  }

  /** A frame that carries the identifier and the bytes of a bit field under the length prefix `n`. */
  lemma BitfieldFrame(src: Bytes, bits: seq<bool>, n: nat, rest: Bytes)
    requires |src| >= 5 && src[0] != HANDSHAKE_ID && src[4] == 5
    requires ReadU32(src) == n
    requires src[5..] == BitsToBytes(bits) + rest
    ensures if n == 1 + |bits| && n != 1 && n != 5 then DecodeFrame(src) == Frame(Decoded(Bitfield(bits)), rest)
            else DecodeFrame(src).result != Decoded(Bitfield(bits))
  {
    hide DecodeFrame, DecodeBitfield, ReadU32, BitsToBytes;
    BitfieldArm(src);
    if n > 1 && n != 5 {
      if n == 1 + |bits| {
        BitfieldBody(src, bits, rest);
      } else if DecodeFrame(src).result == Decoded(Bitfield(bits)) {
        BitfieldCount(src, n, bits);
      }
    }
  }

  lemma BitfieldRoundTrip(bits: seq<bool>, rest: Bytes)
    ensures DecodeFrame(BitfieldBytes(bits) + rest) == Frame(Decoded(Bitfield(bits)), rest)
         <==> WireSafe(Bitfield(bits))
  {
    hide DecodeFrame, BitfieldBytes, BitsToBytes, U32Bytes, ReadU32;
    var n := Wrap32(1 + |bits|);
    var src := BitfieldBytes(bits) + rest;
    BitfieldSource(bits, rest);
    if src[0] == HANDSHAKE_ID {
      MarkerWins(src);
    } else {
      BitfieldFrame(src, bits, n, rest);
    }
  }

  lemma FourBytes(n: U32)
    ensures |U32Bytes(n)| == 4
  {
  }

  lemma BitfieldSource(bits: seq<bool>, rest: Bytes)
    ensures var src := BitfieldBytes(bits) + rest;
            && |src| >= 5 && src[4] == 5 && src[5..] == BitsToBytes(bits) + rest && ReadU32(src) == Wrap32(1 + |bits|)
            && (SafePrefix(1 + |bits|) <==> src[0] != HANDSHAKE_ID && Wrap32(1 + |bits|) == 1 + |bits|)
  {
    hide BitsToBytes, U32Bytes, ReadU32;
    var src := BitfieldBytes(bits) + rest;
    FourBytes(Wrap32(1 + |bits|));
    PrefixOf(1 + |bits|, [5] + BitsToBytes(bits) + rest);
    assert src == U32Bytes(Wrap32(1 + |bits|)) + ([5] + BitsToBytes(bits) + rest);
  }

  /** The length prefix of a frame says the length, and does not start like a handshake, if and only
      if the length is safe. */
  lemma PrefixOf(k: nat, tail: Bytes)
    ensures var src := U32Bytes(Wrap32(k)) + tail;
            && ReadU32(src) == Wrap32(k)
            && (SafePrefix(k) <==> Wrap32(k) == k && src[0] != HANDSHAKE_ID)
  {
    PrefixIsRead(Wrap32(k), tail);
  }

  lemma PieceFrame(src: Bytes, m: PeerMessage, n: nat, rest: Bytes)
    requires m.Piece?
    requires |src| >= 5 && src[0] != HANDSHAKE_ID && src[4] == 7
    requires ReadU32(src) == n
    requires src[5..] == U32Bytes(m.index) + U32Bytes(m.begin) + m.block + rest
    ensures if n == 9 + |m.block| then DecodeFrame(src) == Frame(Decoded(m), rest)
            else DecodeFrame(src).result != Decoded(m)
  {
    if n > 1 && n != 5 && 4 + n <= |src| {
      var msg := src[..4 + n];
      assert DecodeFrame(src) == DecodePayload(7, msg, src, src[4 + n..]);
      if n == 9 + |m.block| {
        PieceFields(src, m, rest);
      }
    }
  }

  lemma PieceFields(src: Bytes, m: PeerMessage, rest: Bytes)
    requires m.Piece?
    requires |src| >= 5
    requires src[5..] == U32Bytes(m.index) + U32Bytes(m.begin) + m.block + rest
    ensures var msg := src[..13 + |m.block|];
            && ReadU32(msg[5..9]) == m.index && ReadU32(msg[9..13]) == m.begin && msg[13..] == m.block
            && src[13 + |m.block|..] == rest
  {
    var a, b, c := src[..5], U32Bytes(m.index), U32Bytes(m.begin);
    var msg := src[..13 + |m.block|];
    assert src == a + src[5..];
    assert src == msg + rest && msg == a + b + c + m.block;
    assert msg == a + b + (c + m.block);
    Middle(a, b, c + m.block);
    Middle(a + b, c, m.block);
    U32RoundTrip(m.index);
    U32RoundTrip(m.begin);
  }

  lemma PieceRoundTrip(m: PeerMessage, rest: Bytes)
    requires m.Piece?
    ensures DecodeFrame(PieceBytes(m.index, m.begin, m.block) + rest) == Frame(Decoded(m), rest) <==> WireSafe(m)
  {
    var n := Wrap32(9 + |m.block|);
    var src := PieceBytes(m.index, m.begin, m.block) + rest;
    var tail := U32Bytes(m.index) + U32Bytes(m.begin) + m.block + rest;
    PrefixOf(9 + |m.block|, [7] + tail);
    assert src == U32Bytes(n) + ([7] + tail);
    assert src[4] == 7 && src[5..] == tail;
    if src[0] == HANDSHAKE_ID {
      MarkerWins(src);
    } else {
      PieceFrame(src, m, n, rest);
    }
  }

  lemma RequestFields(src: Bytes, r: PeerRequest, rest: Bytes)
    requires |src| >= 5
    requires src[5..] == RequestBytes(r) + rest
    ensures var msg := src[..17];
            && PeerRequest(ReadU32(msg[5..9]), ReadU32(msg[9..13]), ReadU32(msg[13..17])) == r
            && src[17..] == rest
  {
    var a, b, c, d := src[..5], U32Bytes(r.index), U32Bytes(r.begin), U32Bytes(r.length);
    var msg := src[..17];
    assert src == a + src[5..];
    assert src == msg + rest && msg == a + b + c + d;
    assert msg == a + b + (c + d) && msg == a + b + c + d + [];
    Middle(a, b, c + d);
    Middle(a + b, c, d);
    Middle(a + b + c, d, []);
    U32RoundTrip(r.index);
    U32RoundTrip(r.begin);
    U32RoundTrip(r.length);
  }

  lemma RequestRoundTrip(r: PeerRequest, id: Byte, rest: Bytes)
    requires id == 6 || id == 8
    ensures DecodeFrame(U32Bytes(13) + [id] + RequestBytes(r) + rest)
         == Frame(Decoded(if id == 6 then Request(r) else Cancel(r)), rest)
  {
    var src := U32Bytes(13) + [id] + RequestBytes(r) + rest;
    assert src == U32Bytes(13) + ([id] + RequestBytes(r) + rest);
    PrefixIsRead(13, [id] + RequestBytes(r) + rest);
    assert src[4] == id && src[5..] == RequestBytes(r) + rest;
    RequestFields(src, r, rest);
    assert DecodeFrame(src) == DecodePayload(id, src[..17], src, src[17..]);
  }

  lemma HandshakeRoundTrip(h: Handshake, rest: Bytes)
    requires HandshakeMsg(h).Sized()
    ensures DecodeFrame(Encode(HandshakeMsg(h)) + rest) == Frame(Decoded(HandshakeMsg(h)), rest)
  {
    var src := Encode(HandshakeMsg(h)) + rest;
    assert src[0] == HANDSHAKE_ID;
    assert src[1..20] == IDENTIFIER;
    assert src[20..28] == h.reserved && src[28..48] == h.infoHash && src[48..68] == h.peerId;
    assert src[68..] == rest;
  }

  lemma ShortRoundTrip(m: PeerMessage, rest: Bytes)
    requires m.KeepAlive? || m.Choke? || m.UnChoke? || m.Interested? || m.NotInterested?
    ensures DecodeFrame(Encode(m) + rest) == Frame(Decoded(m), rest)
  {
    hide U32Bytes, ReadU32;
    var src := Encode(m) + rest;
    if m.KeepAlive? {
      FourBytes(0);
      PrefixIsRead(0, rest);
    } else {
      var id: Byte := if m.Choke? then 0 else if m.UnChoke? then 1 else if m.Interested? then 2 else 3;
      assert src == U32Bytes(1) + ([id] + rest);
      FourBytes(1);
      PrefixIsRead(1, [id] + rest);
      assert src[4] == id && src[5..] == rest;
    }
  }

  lemma HaveRoundTrip(index: U32, rest: Bytes)
    ensures DecodeFrame(Encode(Have(index)) + rest) == Frame(Decoded(Have(index)), rest)
  {
    var src := Encode(Have(index)) + rest;
    assert src == U32Bytes(5) + ([4] + U32Bytes(index) + rest);
    PrefixIsRead(5, [4] + U32Bytes(index) + rest);
    FieldIsRead(U32Bytes(5) + [4], index, rest);
    assert src == U32Bytes(5) + [4] + U32Bytes(index) + rest;
    assert src[9..] == rest;
  }

  lemma PortRoundTrip(port: U16, rest: Bytes)
    ensures DecodeFrame(Encode(Port(port)) + rest) == Frame(Decoded(Port(port)), rest)
  {
    var src := Encode(Port(port)) + rest;
    assert src == U32Bytes(3) + ([9] + U16Bytes(port) + rest);
    PrefixIsRead(3, [9] + U16Bytes(port) + rest);
    assert src[..7][5..] == U16Bytes(port) == U16Bytes(port)[..2];
    assert Pow256(2) == 0x1_0000;
    BigEndianRoundTrip(port, 2);
    assert src[7..] == rest;
  }

  /** Whatever follows it in the buffer, an encoded message decodes to itself, and leaves exactly
      what followed, if and only if it is wire safe. */
  lemma RoundTrip(m: PeerMessage, rest: Bytes)
    requires m.Sized()
    ensures DecodeFrame(Encode(m) + rest) == Frame(Decoded(m), rest) <==> WireSafe(m)
  {
    match m
    case Have(i) => HaveRoundTrip(i, rest);
    case Bitfield(bits) => BitfieldRoundTrip(bits, rest);
    case Request(r) => RequestRoundTrip(r, 6, rest);
    case Cancel(r) => RequestRoundTrip(r, 8, rest);
    case Piece(_, _, _) => PieceRoundTrip(m, rest);
    case HandshakeMsg(h) => HandshakeRoundTrip(h, rest);
    case Port(p) => PortRoundTrip(p, rest);
    case _ => ShortRoundTrip(m, rest);
  }
}
