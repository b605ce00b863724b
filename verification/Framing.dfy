/** Reading a byte stream with the decoder, whole or piece by piece. */
module Framing {
  import opened Collections
  import opened Messages
  import opened Codec

  /** What a reader has produced, why it stopped, and the bytes it has not decoded. */
  datatype Reader = Reader(msgs: seq<PeerMessage>, end: DecodeResult, rest: Bytes)

  /** Call `decode` until it yields no message. */
  function DecodeAll(src: Bytes): (r: Reader)
    ensures !r.end.Decoded?
    decreases |src|
  {
    var f := DecodeFrame(src);
    if f.result.Decoded? then
      var r := DecodeAll(f.rest);
      Reader([f.result.msg] + r.msgs, r.end, r.rest)
    else Reader([], f.result, f.rest)
  }

  function EncodeAll(ms: seq<PeerMessage>): Bytes {
    if ms == [] then [] else Encode(ms[0]) + EncodeAll(ms[1..])
  }

  /** A chunk arrives: it is appended to the buffer and decoded, unless the reader has failed. */
  function Feed(r: Reader, chunk: Bytes): Reader {
    if r.end.NeedMore? then
      var more := DecodeAll(r.rest + chunk);
      Reader(r.msgs + more.msgs, more.end, more.rest)
    else Reader(r.msgs, r.end, r.rest + chunk)
  }

  function ReadChunks(chunks: seq<Bytes>): Reader {
    if chunks == [] then Reader([], NeedMore, [])
    else Feed(ReadChunks(chunks[..|chunks| - 1]), chunks[|chunks| - 1])
  }

  // ---------------------------------------------------------------- stream round trip

  /** Any sequence of wire-safe messages is read back in order, and reading goes on with exactly the
      bytes that follow their encodings. */
  lemma {:induction false} StreamRoundTrip(ms: seq<PeerMessage>, rest: Bytes)
    requires forall m :: m in ms ==> m.Sized() && WireSafe(m)
    ensures var r, tail := DecodeAll(EncodeAll(ms) + rest), DecodeAll(rest);
            r == Reader(ms + tail.msgs, tail.end, tail.rest)
  {
    hide DecodeFrame, Encode;
    if ms == [] {
      assert EncodeAll(ms) + rest == rest;
    } else {
      var m, tail := ms[0], EncodeAll(ms[1..]) + rest;
      assert EncodeAll(ms) + rest == Encode(m) + tail;
      RoundTrip(m, tail);
      StreamRoundTrip(ms[1..], rest);
      assert ms == [m] + ms[1..];
    }
  }

  /** Different sequences of wire-safe messages have different encodings. */
  lemma EncodeAllInjective(a: seq<PeerMessage>, b: seq<PeerMessage>)
    requires forall m :: m in a ==> m.Sized() && WireSafe(m)
    requires forall m :: m in b ==> m.Sized() && WireSafe(m)
    requires EncodeAll(a) == EncodeAll(b)
    ensures a == b
  {
    hide DecodeAll, EncodeAll;
    StreamRoundTrip(a, []);
    StreamRoundTrip(b, []);
    var t := DecodeAll([]).msgs;
    assert (a + t)[..|a|] == a && (b + t)[..|b|] == b;
  }

  // ---------------------------------------------------------------- chunking

  lemma DropOfConcat(a: Bytes, b: Bytes, n: nat)
    requires n <= |a|
    ensures (a + b)[n..] == a[n..] + b
  {
  }

  /** A call that wants more bytes consumes nothing; one that yields a message consumes something. */
  lemma Consumption(src: Bytes)
    ensures var f := DecodeFrame(src);
            && (f.result.NeedMore? ==> f.rest == src)
            && (f.result.Decoded? ==> |f.rest| < |src|)
            && (f.result == Panicked(AtIdByte) ==> |src| == 4 && f.rest == src)
  {
  }

  lemma HandshakeExtends(a: Bytes, b: Bytes)
    requires |a| >= 4 && !DecodeHandshake(a).result.NeedMore?
    ensures DecodeHandshake(a + b) == Frame(DecodeHandshake(a).result, DecodeHandshake(a).rest + b)
  {
    if |a| >= 68 {
      SliceOfConcat(a, b, 1, 20);
      SliceOfConcat(a, b, 20, 28);
      SliceOfConcat(a, b, 28, 48);
      SliceOfConcat(a, b, 48, 68);
      DropOfConcat(a, b, 68);
    }
  }

  lemma SliceOfConcat(a: Bytes, b: Bytes, i: nat, j: nat)
    requires i <= j <= |a|
    ensures (a + b)[i..j] == a[i..j]
  {
  }

  lemma BitfieldExtends(a: Bytes, b: Bytes, length: nat)
    requires |a| > 4 && length > 1 && !DecodeBitfield(a, length).result.NeedMore?
    ensures DecodeBitfield(a + b, length)
         == Frame(DecodeBitfield(a, length).result, DecodeBitfield(a, length).rest + b)
  {
    var count := length - 1;
    var total := count / 8 + (if count % 8 > 0 then 1 else 0) + 5;
    assert (a + b)[5..total] == a[5..total];
    DropOfConcat(a, b, total);
  }

  lemma ShortExtends(a: Bytes, b: Bytes)
    requires |a| >= 4
    ensures !DecodeStateChange(a).result.NeedMore? ==>
              DecodeStateChange(a + b) == Frame(DecodeStateChange(a).result, DecodeStateChange(a).rest + b)
    ensures !DecodeHave(a).result.NeedMore? ==>
              DecodeHave(a + b) == Frame(DecodeHave(a).result, DecodeHave(a).rest + b)
  {
    if |a| >= 5 {
      assert (a + b)[5..] == a[5..] + b;
    }
    if |a| >= 9 {
      assert (a + b)[5..9] == a[5..9];
      assert (a + b)[9..] == a[9..] + b;
    }
  }

  /** Once a call has an answer, bytes that arrive later do not change it. */
  lemma DecodeExtends(a: Bytes, b: Bytes)
    requires var r := DecodeFrame(a).result; !r.NeedMore? && r != Panicked(AtIdByte)
    ensures DecodeFrame(a + b) == Frame(DecodeFrame(a).result, DecodeFrame(a).rest + b)
  {
    assert (a + b)[..4] == a[..4];
    var length := ReadU32(a);
    if a[0] == HANDSHAKE_ID {
      HandshakeExtends(a, b);
    } else if length == 0 {
      assert (a + b)[4..] == a[4..] + b;
    } else if length == 1 || length == 5 {
      ShortExtends(a, b);
    } else if a[4] == 5 {
      BitfieldExtends(a, b, length);
    } else {
      var n: nat := 4 + length as int;
      assert (a + b)[..n] == a[..n];
      DropOfConcat(a, b, n);
    }
  }

  /** Reading what is there, then the rest, is reading everything at once; a reader that has met a
      bare length prefix is the one exception. */
  lemma {:induction false} FeedRefinesWhole(a: Bytes, b: Bytes)
    requires DecodeAll(a).end != Panicked(AtIdByte)
    ensures DecodeAll(a + b) == Feed(DecodeAll(a), b)
    decreases |a|
  {
    hide DecodeFrame;
    var f := DecodeFrame(a);
    Consumption(a);
    if !f.result.NeedMore? {
      DecodeExtends(a, b);
      if f.result.Decoded? {
        FeedRefinesWhole(f.rest, b);
      }
    }
  }

  /** The exception is real: bytes that arrive after a bare prefix are never decoded. */
  lemma {:induction false} BarePrefixDiffers(a: Bytes, b: Bytes)
    requires DecodeAll(a).end == Panicked(AtIdByte) && b != []
    ensures DecodeAll(a + b) != Feed(DecodeAll(a), b)
    decreases |a|
  {
    var f := DecodeFrame(a);
    if f.result.Decoded? {
      DecodeExtends(a, b);
      BarePrefixDiffers(f.rest, b);
      assert DecodeAll(a + b).msgs[1..] == DecodeAll(f.rest + b).msgs;
      assert Feed(DecodeAll(a), b).msgs[1..] == Feed(DecodeAll(f.rest), b).msgs;
    } else {
      assert (a + b)[..4] == a[..4];
      var g := DecodeFrame(a + b);
      assert g.result.Panicked? ==> |g.rest| < |a + b|;
    }
  }

  /** Just the length prefix of a frame of the generic arm: four bytes, not the start of a handshake, and a length
      other than 0, 1 and 5. */
  predicate IsBarePrefix(src: Bytes) {
    && |src| == 4 && src[0] != HANDSHAKE_ID
    && ReadU32(src) != 0 && ReadU32(src) != 1 && ReadU32(src) != 5
  }

  /** The bytes behind the whole messages at the front of a buffer. */
  function Leftover(src: Bytes): Bytes
    decreases |src|
  {
    var f := DecodeFrame(src);
    if f.result.Decoded? then Consumption(src); Leftover(f.rest) else src
  }

  /** A split is clean: no chunk but the last byte-bearing one ends right after the length prefix of a frame of the
      generic arm. */
  ghost predicate CleanSplit(chunks: seq<Bytes>) {
    forall i :: 0 <= i <= |chunks| && Flatten(chunks[..i]) != Flatten(chunks) ==>
                  !IsBarePrefix(Leftover(Flatten(chunks[..i])))
  }

  lemma BareExact(src: Bytes)
    ensures DecodeFrame(src).result == Panicked(AtIdByte) <==> IsBarePrefix(src)
    ensures IsBarePrefix(src) ==> !DecodeFrame(src).result.Decoded?
  {
    hide ReadU32;
  }

  /** The reader stalls if and only if the guard says so. */
  lemma {:induction false} StallExact(src: Bytes)
    ensures DecodeAll(src).end == Panicked(AtIdByte) <==> IsBarePrefix(Leftover(src))
    decreases |src|
  {
    hide DecodeFrame, IsBarePrefix;
    BareExact(src);
    var f := DecodeFrame(src);
    if f.result.Decoded? {
      Consumption(src);
      StallExact(f.rest);
    }
  }

  /** The same condition, on what the decoder does. */
  ghost predicate NeverStalls(chunks: seq<Bytes>) {
    forall i :: 0 <= i <= |chunks| && Flatten(chunks[..i]) != Flatten(chunks) ==>
                  DecodeAll(Flatten(chunks[..i])).end != Panicked(AtIdByte)
  }

  lemma CleanNeverStalls(chunks: seq<Bytes>)
    ensures CleanSplit(chunks) <==> NeverStalls(chunks)
  {
    hide Flatten, DecodeAll, Leftover, IsBarePrefix;
    forall i | 0 <= i <= |chunks|
      ensures DecodeAll(Flatten(chunks[..i])).end == Panicked(AtIdByte)
         <==> IsBarePrefix(Leftover(Flatten(chunks[..i])))
    {
      StallExact(Flatten(chunks[..i]));
    }
  }

  lemma FlattenLast(chunks: seq<Bytes>)
    requires chunks != []
    ensures Flatten(chunks) == Flatten(chunks[..|chunks| - 1]) + chunks[|chunks| - 1]
  {
    hide Flatten;
    var init, last := chunks[..|chunks| - 1], chunks[|chunks| - 1];
    assert chunks == init + [last];
    FlattenAppend(init, [last]);
    FlattenOne(last);
  }

  /** A longer prefix of the stream holds at least as many bytes. */
  lemma {:induction false} PrefixBytes(chunks: seq<Bytes>, i: nat)
    requires i <= |chunks|
    ensures Flatten(chunks) == Flatten(chunks[..i]) + Flatten(chunks[i..])
  {
    assert chunks == chunks[..i] + chunks[i..];
    FlattenAppend(chunks[..i], chunks[i..]);
  }

  /** A reader that has stalled never recovers. */
  lemma {:induction false} StallIsFinal(chunks: seq<Bytes>, i: nat)
    requires i <= |chunks|
    requires ReadChunks(chunks[..i]).end == Panicked(AtIdByte)
    ensures var r := ReadChunks(chunks[..i]);
            ReadChunks(chunks) == Reader(r.msgs, r.end, r.rest + Flatten(chunks[i..]))
    decreases |chunks|
  {
    hide DecodeAll;
    if i == |chunks| {
      assert chunks[..i] == chunks;
    } else {
      hide Flatten;
      var init := chunks[..|chunks| - 1];
      assert init[..i] == chunks[..i];
      StallIsFinal(init, i);
      FlattenRest(chunks, i);
    }
  }

  lemma FlattenRest(chunks: seq<Bytes>, i: nat)
    requires i < |chunks|
    ensures Flatten(chunks[i..]) == Flatten(chunks[..|chunks| - 1][i..]) + chunks[|chunks| - 1]
  {
    hide Flatten;
    var tail := chunks[i..];
    assert tail[..|tail| - 1] == chunks[..|chunks| - 1][i..];
    FlattenLast(tail);
  }

  lemma NeverStallsPrefix(chunks: seq<Bytes>)
    requires chunks != [] && NeverStalls(chunks)
    ensures NeverStalls(chunks[..|chunks| - 1])
  {
    var init := chunks[..|chunks| - 1];
    forall i | 0 <= i <= |init| && Flatten(init[..i]) != Flatten(init)
      ensures DecodeAll(Flatten(init[..i])).end != Panicked(AtIdByte)
    {
      assert init[..i] == chunks[..i];
      PrefixBytes(init, i);
      FlattenLast(chunks);
      assert |Flatten(init[..i])| < |Flatten(chunks)|;
    }
  }

  lemma {:induction false} NoStallIsEnough(chunks: seq<Bytes>)
    requires NeverStalls(chunks)
    ensures ReadChunks(chunks) == DecodeAll(Flatten(chunks))
  {
    if chunks != [] {
      var init, last := chunks[..|chunks| - 1], chunks[|chunks| - 1];
      NeverStallsPrefix(chunks);
      NoStallIsEnough(init);
      FlattenLast(chunks);
      if DecodeAll(Flatten(init)).end == Panicked(AtIdByte) {
        assert Flatten(init) == Flatten(chunks) by {
          assert 0 <= |init| <= |chunks| && chunks[..|init|] == init;
        }
        assert last == [];
      } else {
        FeedRefinesWhole(Flatten(init), last);
      }
    }
  }

  /** Any split of any byte stream, well formed or not, yields the same messages, the same outcome
      and the same leftover as one buffer, if and only if the split is clean. */
  lemma ChunkingIndependence(chunks: seq<Bytes>)
    ensures ReadChunks(chunks) == DecodeAll(Flatten(chunks)) <==> CleanSplit(chunks)
  {
    hide DecodeAll, ReadChunks, Flatten, CleanSplit;
    CleanNeverStalls(chunks);
    if NeverStalls(chunks) {
      NoStallIsEnough(chunks);
    } else {
      var i := FirstStall(chunks);
      var a, b := Flatten(chunks[..i]), Flatten(chunks[i..]);
      NoStallIsEnough(chunks[..i]);
      StallIsFinal(chunks, i);
      PrefixBytes(chunks, i);
      BarePrefixDiffers(a, b);
    }
  }

  lemma {:induction false} FirstStall(chunks: seq<Bytes>) returns (i: nat)
    requires !NeverStalls(chunks)
    ensures i <= |chunks| && Flatten(chunks[..i]) != Flatten(chunks)
    ensures DecodeAll(Flatten(chunks[..i])).end == Panicked(AtIdByte)
    ensures NeverStalls(chunks[..i])
    decreases |chunks|
  {
    hide DecodeAll, Flatten;
    i :| 0 <= i <= |chunks| && Flatten(chunks[..i]) != Flatten(chunks)
         && DecodeAll(Flatten(chunks[..i])).end == Panicked(AtIdByte);
    assert i == |chunks| ==> chunks[..i] == chunks;
    PrefixBytes(chunks, i);
    if !NeverStalls(chunks[..i]) {
      var k := FirstStall(chunks[..i]);
      PrefixBytes(chunks[..i], k);
      assert chunks[..i][..k] == chunks[..k];
      assert |Flatten(chunks[..k])| < |Flatten(chunks[..i])| <= |Flatten(chunks)|;
      i := k;
    }
  }

  /** Messages decoded by the arm that reads the identifier early. */
  predicate GenericArm(m: PeerMessage) {
    m.Bitfield? || m.Request? || m.Cancel? || m.Piece? || m.Port?
  }

  /** A strict prefix of an encoded message is not enough, and stays in the buffer; with just the
      length prefix of a generic-arm message the decoder panics instead. */
  lemma StrictPrefix(m: PeerMessage, k: nat)
    requires m.Sized() && WireSafe(m)
    requires k < |Encode(m)|
    ensures DecodeFrame(Encode(m)[..k])
         == Frame(if k == 4 && GenericArm(m) then Panicked(AtIdByte) else NeedMore, Encode(m)[..k])
  {
    hide DecodeFrame, Encode;
    var whole := Encode(m);
    var a, b := whole[..k], whole[k..];
    assert whole == a + b && whole + [] == whole;
    RoundTrip(m, []);
    var r := DecodeFrame(a).result;
    if !r.NeedMore? && r != Panicked(AtIdByte) {
      DecodeExtends(a, b);
      assert false;
    }
    Consumption(a);
    if k == 4 {
      BarePrefixOf(m);
    }
  }

  lemma BarePrefix(n: U32, tail: Bytes)
    requires n / 0x100_0000 != HANDSHAKE_ID && n != 0
    ensures DecodeFrame((U32Bytes(n) + tail)[..4]).result == if n == 1 || n == 5 then NeedMore else Panicked(AtIdByte)
  {
    var b := U32Bytes(n);
    assert (b + tail)[..4] == b == b[..4];
    U32RoundTrip(n);
  }

  lemma HandshakePrefix(b: Bytes)
    requires |b| == 4 && b[0] == HANDSHAKE_ID
    ensures DecodeFrame(b).result.NeedMore?
  {
  }

  lemma PayloadForm(m: PeerMessage) returns (n: U32, tail: Bytes)
    requires m.Request? || m.Cancel? || m.Port?
    ensures Encode(m) == U32Bytes(n) + tail && (n == 13 || n == 3)
  {
    hide U32Bytes, U16Bytes;
    n := if m.Port? then 3 else 13;
    tail := if m.Request? then [6] + RequestBytes(m.request)
            else if m.Cancel? then [8] + RequestBytes(m.cancel)
            else [9] + U16Bytes(m.port);
  }

  lemma BitfieldForm(bits: seq<bool>)
    requires 1 + |bits| < TWO32
    ensures Encode(Bitfield(bits)) == U32Bytes(1 + |bits|) + ([5] + BitsToBytes(bits))
  {
    hide U32Bytes, BitsToBytes, Wrap32;
    WrapSmall(1 + |bits|);
    ConcatAssociates(U32Bytes(1 + |bits|), [5], BitsToBytes(bits));
  }

  lemma PieceForm(m: PeerMessage)
    requires m.Piece? && 9 + |m.block| < TWO32
    ensures Encode(m) == U32Bytes(9 + |m.block|) + ([7] + U32Bytes(m.index) + U32Bytes(m.begin) + m.block)
  {
    hide U32Bytes, Wrap32;
    WrapSmall(9 + |m.block|);
    var head, tail := U32Bytes(9 + |m.block|), [7] + U32Bytes(m.index) + U32Bytes(m.begin) + m.block;
    assert PieceBytes(m.index, m.begin, m.block) == head + tail;
  }

  lemma GenericPrefix(m: PeerMessage)
    requires GenericArm(m) && WireSafe(m)
    ensures DecodeFrame(Encode(m)[..4]).result == Panicked(AtIdByte)
  {
    hide DecodeFrame, Encode, U32Bytes, BitsToBytes;
    if m.Bitfield? {
      BitfieldForm(m.bits);
      BarePrefix(1 + |m.bits|, [5] + BitsToBytes(m.bits));
    } else if m.Piece? {
      PieceForm(m);
      BarePrefix(9 + |m.block|, [7] + U32Bytes(m.index) + U32Bytes(m.begin) + m.block);
    } else {
      var n, tail := PayloadForm(m);
      BarePrefix(n, tail);
    }
  }

  lemma BarePrefixOf(m: PeerMessage)
    requires m.Sized() && WireSafe(m) && |Encode(m)| > 4
    ensures DecodeFrame(Encode(m)[..4]).result == if GenericArm(m) then Panicked(AtIdByte) else NeedMore
  {
    hide BigEndian, DecodeFrame;
    if GenericArm(m) {
      GenericPrefix(m);
    } else if m.HandshakeMsg? {
      HandshakePrefix(Encode(m)[..4]);
    } else if m.Have? {
      BarePrefix(5, [4] + U32Bytes(m.have));
      assert Encode(m) == U32Bytes(5) + ([4] + U32Bytes(m.have));
    } else {
      BarePrefix(1, Encode(m)[4..]);
      assert Encode(m) == U32Bytes(1) + Encode(m)[4..];
    }
  }

  // ---------------------------------------------------------------- splits of encoded streams

  /** Position `n` of the stream is four bytes into a message of the generic arm. */
  ghost predicate InBarePrefix(ms: seq<PeerMessage>, n: nat) {
    exists k :: 0 <= k < |ms| && GenericArm(ms[k]) && n == |EncodeAll(ms[..k])| + 4
  }

  lemma EncodeAllPrefix(ms: seq<PeerMessage>, k: nat)
    requires 0 < k <= |ms|
    ensures EncodeAll(ms[..k]) == Encode(ms[0]) + EncodeAll(ms[1..][..k - 1])
  {
    assert ms[..k][1..] == ms[1..][..k - 1];
  }

  lemma GenericIsLong(m: PeerMessage)
    requires m.Sized() && GenericArm(m)
    ensures |Encode(m)| > 4
  {
  }

  lemma InBarePrefixSplit(ms: seq<PeerMessage>, n: nat)
    requires ms != [] && ms[0].Sized()
    ensures n < |Encode(ms[0])| ==> (InBarePrefix(ms, n) <==> n == 4 && GenericArm(ms[0]))
    ensures n >= |Encode(ms[0])| ==> (InBarePrefix(ms, n) <==> InBarePrefix(ms[1..], n - |Encode(ms[0])|))
  {
    hide Encode, GenericArm, EncodeAll;
    var rest, first := ms[1..], |Encode(ms[0])|;
    NothingEncoded();
    assert ms[..0] == [];
    if GenericArm(ms[0]) {
      GenericIsLong(ms[0]);
    }
    if k :| 0 <= k < |ms| && GenericArm(ms[k]) && n == |EncodeAll(ms[..k])| + 4 {
      if k > 0 {
        EncodeAllPrefix(ms, k);
        assert rest[k - 1] == ms[k] && n - first == |EncodeAll(rest[..k - 1])| + 4;
      }
    }
    if n >= first && InBarePrefix(rest, n - first) {
      var k :| 0 <= k < |rest| && GenericArm(rest[k]) && n - first == |EncodeAll(rest[..k])| + 4;
      EncodeAllPrefix(ms, k + 1);
      assert GenericArm(ms[k + 1]) && n == |EncodeAll(ms[..k + 1])| + 4;
    }
  }

  lemma NothingEncoded()
    ensures EncodeAll([]) == []
  {
  }

  /** Reading the first `n` bytes of an encoded stream stalls if and only if they end four bytes into a message of
      the generic arm. */
  lemma {:induction false} EncodedStallExact(ms: seq<PeerMessage>, n: nat)
    requires forall m :: m in ms ==> m.Sized() && WireSafe(m)
    requires n < |EncodeAll(ms)|
    ensures DecodeAll(EncodeAll(ms)[..n]).end == Panicked(AtIdByte) <==> InBarePrefix(ms, n)
    decreases |ms|
  {
    hide DecodeFrame, Encode, InBarePrefix, GenericArm;
    var m, rest := ms[0], EncodeAll(ms[1..]);
    InBarePrefixSplit(ms, n);
    if n < |Encode(m)| {
      assert EncodeAll(ms)[..n] == Encode(m)[..n];
      StrictPrefix(m, n);
    } else {
      var k := n - |Encode(m)|;
      assert EncodeAll(ms)[..n] == Encode(m) + rest[..k];
      RoundTrip(m, rest[..k]);
      EncodedStallExact(ms[1..], k);
    }
  }

  /** A split of an encoded stream is clean if and only if no chunk ends four bytes into a message of the generic
      arm. */
  lemma EncodedSplitExact(ms: seq<PeerMessage>, chunks: seq<Bytes>)
    requires forall m :: m in ms ==> m.Sized() && WireSafe(m)
    requires Flatten(chunks) == EncodeAll(ms)
    ensures CleanSplit(chunks) <==> forall i :: 0 <= i <= |chunks| ==> !InBarePrefix(ms, |Flatten(chunks[..i])|)
  {
    hide DecodeAll, Flatten, CleanSplit, InBarePrefix;
    CleanNeverStalls(chunks);
    forall i | 0 <= i <= |chunks|
      ensures InBarePrefix(ms, |Flatten(chunks[..i])|)
         <==> Flatten(chunks[..i]) != Flatten(chunks) && DecodeAll(Flatten(chunks[..i])).end == Panicked(AtIdByte)
    {
      var front := Flatten(chunks[..i]);
      PrefixBytes(chunks, i);
      assert EncodeAll(ms)[..|front|] == front;
      if |front| < |EncodeAll(ms)| {
        EncodedStallExact(ms, |front|);
      } else {
        assert front == EncodeAll(ms);
        NotAtTheEnd(ms);
      }
    }
  }

  lemma {:induction false} NotAtTheEnd(ms: seq<PeerMessage>)
    requires forall m :: m in ms ==> m.Sized()
    ensures !InBarePrefix(ms, |EncodeAll(ms)|)
    decreases |ms|
  {
    hide Encode, GenericArm;
    if ms != [] {
      InBarePrefixSplit(ms, |EncodeAll(ms)|);
      NotAtTheEnd(ms[1..]);
    }
  }
}
