/** Hashing the pieces of a torrent while its files are read (src/torrent/builder.rs). */
module Builder {
  import opened Collections
  import opened Messages

  /** A running SHA-1 computation is a function of the bytes fed to it so far. */
  datatype Hasher = Hasher(fed: Bytes) {
    function Update(data: Bytes): Hasher {
      Hasher(fed + data)
    }
  }

  /** A piece that the end of a file has left unfinished: bytes read and their hasher. */
  type Overlap = Option<(nat, Hasher)>

  /** The reference: cut the content at every multiple of the piece length. */
  function Chunks(data: Bytes, pieceLength: nat): seq<Bytes>
    requires pieceLength > 0
    decreases |data|
  {
    if data == [] then []
    else if |data| <= pieceLength then [data]
    else [data[..pieceLength]] + Chunks(data[pieceLength..], pieceLength)
  }

  function HashAll(chunks: seq<Bytes>): seq<Hasher> {
    if chunks == [] then [] else [Hasher(chunks[0])] + HashAll(chunks[1..])
  }

  // ---------------------------------------------------------------- streaming

  /** The bytes that an unfinished piece holds. */
  function Held(o: Overlap): Bytes {
    if o.Some? then o.value.1.fed else []
  }

  function FedTo(hashes: seq<Hasher>): Bytes {
    if hashes == [] then [] else hashes[0].fed + FedTo(hashes[1..])
  }

  lemma {:induction false} FedToAppend(a: seq<Hasher>, b: seq<Hasher>)
    ensures FedTo(a + b) == FedTo(a) + FedTo(b)
  {
    if a == [] {
      assert a + b == b;
    } else {
      FedToAppend(a[1..], b);
      assert (a + b)[1..] == a[1..] + b && (a + b)[0] == a[0];
      ConcatAssociates(a[0].fed, FedTo(a[1..]), FedTo(b));
    }
  }

  /** Everything read has been fed, in order, to whole pieces and then to the open one, which is
      neither empty nor complete and whose counter is right. */
  ghost predicate Covers(hashes: seq<Hasher>, o: Overlap, data: Bytes, pieceLength: nat) {
    && (o.Some? ==> o.value.0 == |o.value.1.fed| && 0 < o.value.0 < pieceLength)
    && (forall h :: h in hashes ==> |h.fed| == pieceLength)
    && FedTo(hashes) + Held(o) == data
  }

  /** Covering is extended by bytes that complete a piece ... */
  lemma CoverPiece(hashes: seq<Hasher>, o: Overlap, data: Bytes, more: Bytes, pieceLength: nat)
    requires Covers(hashes, o, data, pieceLength)
    requires |Held(o)| + |more| == pieceLength
    ensures Covers(hashes + [Hasher(Held(o) + more)], None, data + more, pieceLength)
  {
    var last := Hasher(Held(o) + more);
    FedToAppend(hashes, [last]);
    assert FedTo([last]) == last.fed + FedTo([]);
    hide FedTo;
    assert FedTo(hashes) + last.fed == FedTo(hashes) + Held(o) + more;
  }

  /** ... or by bytes that do not. */
  lemma CoverTail(hashes: seq<Hasher>, o: Overlap, data: Bytes, more: Bytes, pieceLength: nat)
    requires Covers(hashes, o, data, pieceLength)
    requires 0 < |Held(o)| + |more| < pieceLength
    ensures Covers(hashes, Some((|Held(o)| + |more|, Hasher(Held(o) + more))), data + more, pieceLength)
  {
  }

  /** `read_file`: finish the piece that the previous file left open, then cut whole pieces, and hand
      on what is left. The ghost arguments are the history of the files before this one. */
  method ReadFile(content: Bytes, pieceLength: nat, overlap: Overlap, ghost hashes: seq<Hasher>, ghost done: Bytes)
    returns (pieces: seq<Hasher>, pieceOverlap: Overlap)
    requires pieceLength > 0
    requires Covers(hashes, overlap, done, pieceLength)
    ensures Covers(hashes + pieces, pieceOverlap, done + content, pieceLength)
  {
    hide FedTo;
    pieces := [];
    var totalRead := 0;
    assert hashes + pieces == hashes && done + content[..0] == done;
    if overlap.Some? {
      var (previousRead, hasher) := overlap.value;
      var left := pieceLength - previousRead;
      if left <= |content| {
        CoverPiece(hashes, overlap, done, content[..left], pieceLength);
        hasher := hasher.Update(content[..left]);
        pieces := [hasher];
        totalRead := left;
      } else {
        CoverTail(hashes, overlap, done, content, pieceLength);
        return pieces, Some((previousRead + |content|, hasher.Update(content)));
      }
    }
    ghost var before := done + content[..totalRead];
    var cut;
    cut, pieceOverlap := CutPieces(content, totalRead, pieceLength, hashes + pieces, before);
    assert before + content[totalRead..] == done + content;
    assert hashes + pieces + cut == hashes + (pieces + cut);
    pieces := pieces + cut;
  }

  /** One round of the loop: a whole piece more ... */
  lemma CutWhole(hashes: seq<Hasher>, pieces: seq<Hasher>, done: Bytes, content: Bytes, from: nat, at: nat,
                 pieceLength: nat)
    requires from <= at <= at + pieceLength <= |content|
    requires Covers(hashes + pieces, None, done + content[from..at], pieceLength)
    ensures Covers(hashes + (pieces + [Hasher(content[at..at + pieceLength])]), None,
                   done + content[from..at + pieceLength], pieceLength)
  {
    hide Covers;
    var before, buf := done + content[from..at], content[at..at + pieceLength];
    CoverPiece(hashes + pieces, None, before, buf, pieceLength);
    assert before + buf == done + content[from..at + pieceLength];
    assert [] + buf == buf;
    assert hashes + pieces + [Hasher(buf)] == hashes + (pieces + [Hasher(buf)]);
  }

  /** ... or a last one that stays open. */
  lemma CutRest(hashes: seq<Hasher>, pieces: seq<Hasher>, done: Bytes, content: Bytes, from: nat, at: nat,
                 pieceLength: nat)
    requires from <= at < |content| < at + pieceLength
    requires Covers(hashes + pieces, None, done + content[from..at], pieceLength)
    ensures Covers(hashes + pieces, Some((|content| - at, Hasher(content[at..]))), done + content[from..], pieceLength)
  {
    hide Covers;
    var before, buf := done + content[from..at], content[at..];
    CoverTail(hashes + pieces, None, before, buf, pieceLength);
    assert before + buf == done + content[from..] && [] + buf == buf;
  }

  /** The loop of `read_file` over the rest of a file. */
  method CutPieces(content: Bytes, from: nat, pieceLength: nat, ghost hashes: seq<Hasher>, ghost done: Bytes)
    returns (pieces: seq<Hasher>, pieceOverlap: Overlap)
    requires pieceLength > 0 && from <= |content|
    requires Covers(hashes, None, done, pieceLength)
    ensures Covers(hashes + pieces, pieceOverlap, done + content[from..], pieceLength)
  {
    hide Covers;
    pieces, pieceOverlap := [], None;
    var totalRead := from;
    assert hashes + pieces == hashes && done + content[from..from] == done;
    while true
      invariant from <= totalRead <= |content| && pieceOverlap == None
      invariant Covers(hashes + pieces, None, done + content[from..totalRead], pieceLength)
      decreases |content| - totalRead
    {
      var left := |content| - totalRead;
      if left == 0 {
        assert content[from..totalRead] == content[from..];
        return;
      }
      if pieceLength > left {
        CutRest(hashes, pieces, done, content, from, totalRead, pieceLength);
        pieceOverlap := Some((left, Hasher(content[totalRead..])));
        return;
      }
      CutWhole(hashes, pieces, done, content, from, totalRead, pieceLength);
      pieces := pieces + [Hasher(content[totalRead..totalRead + pieceLength])];
      totalRead := totalRead + pieceLength;
    }
  }

  /** Whole pieces and an open one cover a content in one way: as the reference cut. */
  lemma {:induction false} CoverIsChunks(hashes: seq<Hasher>, o: Overlap, data: Bytes, pieceLength: nat)
    requires pieceLength > 0 && Covers(hashes, o, data, pieceLength)
    ensures hashes + (if o.Some? then [o.value.1] else []) == HashAll(Chunks(data, pieceLength))
  {
    hide HashAll, Chunks;
    var tail := if o.Some? then [o.value.1] else [];
    if hashes == [] {
      assert data == Held(o);
      assert hashes + tail == tail;
      LastChunk(data, pieceLength);
    } else {
      var rest := FedTo(hashes[1..]) + Held(o);
      CoverFirst(hashes, o, data, pieceLength);
      hide Covers, FedTo;
      CoverIsChunks(hashes[1..], o, rest, pieceLength);
      FirstChunk(hashes[0].fed, rest, pieceLength);
      assert hashes + tail == [hashes[0]] + (hashes[1..] + tail);
    }
  }

  lemma CoverFirst(hashes: seq<Hasher>, o: Overlap, data: Bytes, pieceLength: nat)
    requires hashes != [] && Covers(hashes, o, data, pieceLength)
    ensures var rest := FedTo(hashes[1..]) + Held(o);
            && data == hashes[0].fed + rest && |hashes[0].fed| == pieceLength
            && Covers(hashes[1..], o, rest, pieceLength)
  {
    ConcatAssociates(hashes[0].fed, FedTo(hashes[1..]), Held(o));
  }

  lemma LastChunk(data: Bytes, pieceLength: nat)
    requires |data| < pieceLength
    ensures HashAll(Chunks(data, pieceLength)) == if data == [] then [] else [Hasher(data)]
  {
    if data != [] {
      assert [data][1..] == [];
      assert HashAll([data]) == [Hasher(data)] + HashAll([data][1..]);
    }
  }

  lemma FirstChunk(first: Bytes, rest: Bytes, pieceLength: nat)
    requires 0 < pieceLength == |first|
    ensures HashAll(Chunks(first + rest, pieceLength)) == [Hasher(first)] + HashAll(Chunks(rest, pieceLength))
  {
    var data := first + rest;
    assert data[..pieceLength] == first && data[pieceLength..] == rest;
    if rest == [] {
      assert data == first;
    }
    var chunks := Chunks(data, pieceLength);
    assert chunks == [first] + Chunks(rest, pieceLength);
    assert chunks[1..] == Chunks(rest, pieceLength);
  }

  /** `read_dir`: for any list of files, empty ones and ones shorter than a piece included, hashing
      them one after the other hashes the reference chunks of their concatenation. */
  method ReadDir(files: seq<Bytes>, pieceLength: nat) returns (hashes: seq<Hasher>)
    requires pieceLength > 0
    ensures hashes == HashAll(Chunks(Flatten(files), pieceLength))
  {
    var overlap: Overlap := None;
    hashes := [];
    for i := 0 to |files|
      invariant Covers(hashes, overlap, Flatten(files[..i]), pieceLength)
    {
      var fileHashes, fileOverlap := ReadFile(files[i], pieceLength, overlap, hashes, Flatten(files[..i]));
      FlattenAppend(files[..i], [files[i]]);
      assert files[..i + 1] == files[..i] + [files[i]];
      assert Flatten([files[i]]) == files[i] + Flatten([]);
      hashes := hashes + fileHashes;
      overlap := fileOverlap;
    }
    assert files[..|files|] == files;
    hashes := CloseLast(hashes, overlap, Flatten(files), pieceLength);
  }

  /** The single-file branch of `read_content`. */
  method ReadSingle(content: Bytes, pieceLength: nat) returns (hashes: seq<Hasher>)
    requires pieceLength > 0
    ensures hashes == HashAll(Chunks(content, pieceLength))
  {
    var overlap;
    hashes, overlap := ReadFile(content, pieceLength, None, [], []);
    assert [] + content == content && [] + hashes == hashes;
    hashes := CloseLast(hashes, overlap, content, pieceLength);
  }

  /** A piece that the last file leaves open is the last, short one. */
  method CloseLast(hashes: seq<Hasher>, overlap: Overlap, ghost data: Bytes, pieceLength: nat)
    returns (all: seq<Hasher>)
    requires pieceLength > 0 && Covers(hashes, overlap, data, pieceLength)
    ensures all == HashAll(Chunks(data, pieceLength))
  {
    CoverIsChunks(hashes, overlap, data, pieceLength);
    all := hashes + if overlap.Some? then [overlap.value.1] else [];
  }

  // ---------------------------------------------------------------- the reference cut

  /** The hashed chunks are the content, none lost and none repeated. */
  lemma {:induction false} ChunksAreTheContent(data: Bytes, pieceLength: nat)
    requires pieceLength > 0
    ensures Flatten(Chunks(data, pieceLength)) == data
    decreases |data|
  {
    if 0 < |data| <= pieceLength {
      assert Flatten([data]) == data + Flatten([]);
    } else if |data| > pieceLength {
      ChunksAreTheContent(data[pieceLength..], pieceLength);
    }
  }

  lemma NextMultiple(i: nat, k: nat)
    ensures (i + 1) * k == i * k + k && 0 <= i * k
  {
  }

  /** The position-wise form: chunk `i` starts at `i * pieceLength`, and only the last may be short. */
  lemma {:induction false} ChunkAt(data: Bytes, pieceLength: nat, i: nat)
    requires pieceLength > 0
    ensures i < |Chunks(data, pieceLength)| <==> i * pieceLength < |data|
    ensures i * pieceLength < |data| ==>
              Chunks(data, pieceLength)[i] == data[i * pieceLength..Min((i + 1) * pieceLength, |data|)]
    decreases i
  {
    NextMultiple(i, pieceLength);
    if i > 0 {
      NextMultiple(i - 1, pieceLength);
      if |data| > pieceLength {
        ChunkStep(data, pieceLength, i, (i - 1) * pieceLength);
      }
    }
  }

  lemma {:induction false} ChunkStep(data: Bytes, pieceLength: nat, i: nat, a: nat)
    requires 0 < pieceLength < |data| && i > 0 && a == (i - 1) * pieceLength
    ensures i < |Chunks(data, pieceLength)| <==> a + pieceLength < |data|
    ensures a + pieceLength < |data| ==>
              Chunks(data, pieceLength)[i] == data[a + pieceLength..Min(a + 2 * pieceLength, |data|)]
    decreases i, 0
  {
    var rest := data[pieceLength..];
    ChunkAt(rest, pieceLength, i - 1);
    NextMultiple(i - 1, pieceLength);
    ChunksUnfold(data, pieceLength);
    hide Chunks;
    if a < |rest| {
      var end := Min(a + pieceLength, |rest|);
      SliceOfSlice(data, pieceLength, |data|, a, end);
      assert pieceLength + end == Min(a + 2 * pieceLength, |data|);
    }
  }

  lemma ChunksUnfold(data: Bytes, pieceLength: nat)
    requires 0 < pieceLength < |data|
    ensures Chunks(data, pieceLength) == [data[..pieceLength]] + Chunks(data[pieceLength..], pieceLength)
  {
  }
}
