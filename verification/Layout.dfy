/** Where the bytes of a torrent sit: pieces of the content, blocks of the pieces
    (src/torrent/builder.rs, src/torrent/mod.rs, src/peer/piece.rs). */
module Layout {
  import opened Collections
  import opened Messages
  import opened Blocks
  import Builder

  const TWO64: int := 0x1_0000_0000_0000_0000

  /** `TorrentInfo::last_piece_length`, in 64-bit arithmetic. */
  function LastPieceLength(total: nat, pieceCount: nat, pieceLength: nat): nat {
    (total - (pieceCount - 1) * pieceLength) % TWO64
  }

  /** `TorrentPieceHandler::piece_length`. */
  function PieceLengthAt(i: nat, pieceCount: nat, pieceLength: nat, lastPieceLength: nat): nat {
    if i == pieceCount - 1 then lastPieceLength else pieceLength
  }

  /** A piece length and the content it was built from. */
  datatype Torrent = Torrent(content: Bytes, pieceLength: nat) {
    ghost predicate Valid() {
      0 < pieceLength && 0 < |content| < TWO64
    }

    function PieceCount(): nat
      requires pieceLength > 0
    {
      |Builder.Chunks(content, pieceLength)|
    }

    function LengthOf(i: nat): nat
      requires pieceLength > 0
    {
      PieceLengthAt(i, PieceCount(), pieceLength, LastPieceLength(|content|, PieceCount(), pieceLength))
    }

    /** The blocks of piece `i`. */
    function BlocksOf(i: nat): seq<BlockMetadata>
      requires pieceLength > 0
    {
      Partition(i, LengthOf(i))
    }

    /** `b` is a block of the torrent. */
    predicate HasBlock(b: BlockMetadata)
      requires pieceLength > 0
    {
      b.pieceIndex < PieceCount() && b in BlocksOf(b.pieceIndex)
    }

    /** Byte `x` of the content falls into the range of `b`. */
    predicate Holds(b: BlockMetadata, x: nat) {
      b.pieceIndex * pieceLength + b.blockOffset <= x < b.pieceIndex * pieceLength + b.End()
    }

    ghost predicate Covered(x: nat)
      requires pieceLength > 0
    {
      exists b :: HasBlock(b) && Holds(b, x)
    }
  }

  lemma CountBounds(t: Torrent)
    requires t.Valid()
    ensures var n := t.PieceCount(); n > 0 && (n - 1) * t.pieceLength < |t.content| <= n * t.pieceLength
  {
    var n := t.PieceCount();
    Builder.ChunkAt(t.content, t.pieceLength, n);
    Builder.ChunkAt(t.content, t.pieceLength, 0);
    assert 0 * t.pieceLength == 0;
    if n > 0 {
      Builder.ChunkAt(t.content, t.pieceLength, n - 1);
    }
  }

  /** The piece count is the ceiling of the quotient. */
  lemma PieceCountIsCeiling(t: Torrent)
    requires t.Valid()
    ensures t.PieceCount() == (|t.content| + t.pieceLength - 1) / t.pieceLength
  {
    CountBounds(t);
    var n, k := t.PieceCount(), t.pieceLength;
    var d := (|t.content| + k - 1) / k;
    assert |t.content| + k - 1 == d * k + (|t.content| + k - 1) % k;
    assert (n - 1) * k == n * k - k;
    QuotientUnique(n, d, k, |t.content|);
  }

  lemma QuotientUnique(n: nat, d: nat, k: nat, x: nat)
    requires k > 0 && n * k - k < x <= n * k && d * k <= x + k - 1 < d * k + k
    ensures n == d
  {
    if n < d {
      MulMono(n + 1, d, k);
      Builder.NextMultiple(n, k);
    } else if d < n {
      MulMono(d + 1, n, k);
      Builder.NextMultiple(d, k);
    }
  }

  /** The last piece is never empty and never too long, and every piece length is the length of the
      chunk that the builder hashed. */
  lemma PieceLengths(t: Torrent, i: nat)
    requires t.Valid() && i < t.PieceCount()
    ensures t.LengthOf(i) == |Builder.Chunks(t.content, t.pieceLength)[i]|
    ensures 0 < t.LengthOf(i) <= t.pieceLength
    ensures i * t.pieceLength + t.LengthOf(i) == Min((i + 1) * t.pieceLength, |t.content|)
  {
    CountBounds(t);
    var n, k := t.PieceCount(), t.pieceLength;
    Builder.ChunkAt(t.content, k, i);
    Builder.NextMultiple(i, k);
    Builder.NextMultiple(n - 1, k);
    if i < n - 1 {
      assert (i + 1) * k <= (n - 1) * k by { MulMono(i + 1, n - 1, k); }
    }
  }

  lemma MulMono(a: nat, b: nat, k: nat)
    requires a <= b
    ensures a * k <= b * k
  {
  }

  lemma PieceOf(x: nat, k: nat) returns (i: nat)
    requires k > 0
    ensures i * k <= x < i * k + k
  {
    i := 0;
    while i * k + k <= x
      invariant i * k <= x
      decreases x - i * k
    {
      Builder.NextMultiple(i, k);
      i := i + 1;
    }
  }

  /** Every byte of the content is in a block, and the block is inside the content. */
  lemma BlockCovers(t: Torrent, x: nat) returns (b: BlockMetadata)
    requires t.Valid() && x < |t.content|
    ensures t.HasBlock(b) && t.Holds(b, x)
  {
    CountBounds(t);
    var k := t.pieceLength;
    var i := PieceOf(x, k);
    Builder.ChunkAt(t.content, k, i);
    PieceLengths(t, i);
    Builder.NextMultiple(i, k);
    hide Partition, LastPieceLength, Builder.Chunks;
    PartitionEndToEnd(i, t.LengthOf(i));
    b := FindBlock(t.BlocksOf(i), t.LengthOf(i), x - i * k);
  }

  lemma FindBlock(s: seq<BlockMetadata>, total: nat, y: nat) returns (b: BlockMetadata)
    requires EndToEnd(s, total) && y < total
    ensures b in s && b.blockOffset <= y < b.End()
  {
    var i := 0;
    assert s[0].blockOffset == 0;
    while s[i].End() <= y
      invariant 0 <= i < |s| && s[i].blockOffset <= y
      decreases |s| - i
    {
      i := i + 1;
    }
    b := s[i];
  }

  /** No byte is in two blocks. */
  lemma BlocksDisjoint(t: Torrent, a: BlockMetadata, b: BlockMetadata, x: nat)
    requires t.Valid()
    requires t.HasBlock(a) && t.Holds(a, x)
    requires t.HasBlock(b) && t.Holds(b, x)
    ensures a == b
  {
    BlockInside(t, a);
    BlockInside(t, b);
    SamePiece(a.pieceIndex, b.pieceIndex, t.pieceLength, x);
    var i := a.pieceIndex;
    var s := t.BlocksOf(i);
    PartitionEndToEnd(i, t.LengthOf(i));
    var p :| 0 <= p < |s| && s[p] == a;
    var q :| 0 <= q < |s| && s[q] == b;
    if p < q {
      EndToEndOrder(s, t.LengthOf(i), p, q);
    } else if q < p {
      EndToEndOrder(s, t.LengthOf(i), q, p);
    }
  }

  lemma SamePiece(i: nat, j: nat, k: nat, x: nat)
    requires i * k <= x < i * k + k && j * k <= x < j * k + k
    ensures i == j
  {
    if i < j {
      MulMono(i + 1, j, k);
      Builder.NextMultiple(i, k);
    } else if j < i {
      MulMono(j + 1, i, k);
      Builder.NextMultiple(j, k);
    }
  }

  /** A block lies inside its piece and inside the content. */
  lemma BlockInside(t: Torrent, b: BlockMetadata)
    requires t.Valid() && t.HasBlock(b)
    ensures b.End() <= t.LengthOf(b.pieceIndex) <= t.pieceLength
    ensures b.pieceIndex * t.pieceLength + b.End() <= |t.content|
  {
    var i := b.pieceIndex;
    var s := t.BlocksOf(i);
    PieceLengths(t, i);
    PartitionEndToEnd(i, t.LengthOf(i));
    var p :| 0 <= p < |s| && s[p] == b;
    EndToEndInside(s, t.LengthOf(i), p);
  }

  /** Exact tiling: the blocks of all pieces cover the content, every byte once and nothing else. */
  lemma ExactTiling(t: Torrent)
    requires t.Valid()
    ensures forall x: nat :: t.Covered(x) <==> x < |t.content|
    ensures forall x: nat, a, b :: t.HasBlock(a) && t.Holds(a, x) && t.HasBlock(b) && t.Holds(b, x) ==> a == b
  {
    forall x: nat
      ensures t.Covered(x) <==> x < |t.content|
    {
      if x < |t.content| {
        var b := BlockCovers(t, x);
      } else {
        forall b | t.HasBlock(b) && t.Holds(b, x)
          ensures false
        {
          BlockInside(t, b);
        }
      }
    }
    forall x: nat, a, b | t.HasBlock(a) && t.Holds(a, x) && t.HasBlock(b) && t.Holds(b, x)
      ensures a == b
    {
      BlocksDisjoint(t, a, b, x);
    }
  }
}
