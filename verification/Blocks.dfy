/** Blocks of a piece (src/disk/block.rs) and how a piece is cut into them (src/peer/piece.rs). */
module Blocks {
  import opened Collections
  import opened Messages

  datatype BlockMetadata = BlockMetadata(pieceIndex: nat, blockOffset: nat, blockLength: nat) {
    function End(): nat {
      blockOffset + blockLength
    }
  }

  datatype Block = Block(metadata: BlockMetadata, data: Bytes) {
    predicate IsCorrectLen() {
      |data| == metadata.blockLength
    }
  }

  const BLOCK_SIZE: nat := 16384

  // ---------------------------------------------------------------- wire conversions

  /** `From<Piece> for Block`. */
  function FromPiece(m: PeerMessage): Block
    requires m.Piece?
  {
    Block(BlockMetadata(m.index, m.begin, |m.block|), m.block)
  }

  /** `Into<Piece> for Block`: index and offset are cut to 32 bits. */
  function IntoPiece(b: Block): PeerMessage {
    Piece(Wrap32(b.metadata.pieceIndex), Wrap32(b.metadata.blockOffset), b.data)
  }

  /** A block survives the trip through a piece message if and only if its position fits the wire and
      its length is the one it claims. */
  lemma BlockWireRoundTrip(b: Block)
    ensures IntoPiece(b).Piece?
    ensures FromPiece(IntoPiece(b)) == b <==>
              b.metadata.pieceIndex < TWO32 && b.metadata.blockOffset < TWO32 && b.IsCorrectLen()
  {
  }

  /** `From<PeerRequest> for BlockMetadata`. */
  function FromRequest(r: PeerRequest): BlockMetadata {
    BlockMetadata(r.index, r.begin, r.length)
  }

  /** `Into<PeerRequest> for BlockMetadata`: all three numbers are cut to 32 bits. */
  function IntoRequest(m: BlockMetadata): PeerRequest {
    PeerRequest(Wrap32(m.pieceIndex), Wrap32(m.blockOffset), Wrap32(m.blockLength))
  }

  /** A request survives the trip through a message if and only if its numbers fit the wire. The piece message that
      answers it names the same piece and the same place. */
  lemma RequestWireRoundTrip(b: Block)
    ensures FromRequest(IntoRequest(b.metadata)) == b.metadata <==>
              b.metadata.pieceIndex < TWO32 && b.metadata.blockOffset < TWO32 && b.metadata.blockLength < TWO32
    ensures IntoPiece(b).index == IntoRequest(b.metadata).index && IntoPiece(b).begin == IntoRequest(b.metadata).begin
    ensures IntoPiece(b).block == b.data
  {
  }

  // ---------------------------------------------------------------- cutting a piece

  /** The blocks of a piece: whole ones, then a truncated one if the length asks for it. */
  function Partition(pieceIndex: nat, pieceLength: nat): seq<BlockMetadata> {
    var rem := pieceLength % BLOCK_SIZE;
    WholeBlocks(pieceIndex, pieceLength / BLOCK_SIZE)
    + if rem > 0 then [BlockMetadata(pieceIndex, pieceLength - rem, rem)] else []
  }

  function WholeBlocks(pieceIndex: nat, n: nat): (s: seq<BlockMetadata>)
    ensures |s| == n
    ensures forall i :: 0 <= i < n ==> s[i] == BlockMetadata(pieceIndex, i * BLOCK_SIZE, BLOCK_SIZE)
  {
    seq(n, i requires 0 <= i < n => BlockMetadata(pieceIndex, i * BLOCK_SIZE, BLOCK_SIZE))
  }

  /** The blocks of a piece are laid end to end: each starts where the one before it ends. */
  ghost predicate EndToEnd(s: seq<BlockMetadata>, total: nat) {
    && (forall i :: 0 <= i < |s| ==> s[i].blockLength > 0)
    && (forall i :: 0 < i < |s| ==> s[i].blockOffset == s[i - 1].End())
    && (if s == [] then total == 0 else s[0].blockOffset == 0 && s[|s| - 1].End() == total)
  }

  lemma PartitionEndToEnd(pieceIndex: nat, pieceLength: nat)
    ensures EndToEnd(Partition(pieceIndex, pieceLength), pieceLength)
    ensures forall b :: b in Partition(pieceIndex, pieceLength) ==>
              b.pieceIndex == pieceIndex && 0 < b.blockLength <= BLOCK_SIZE
  {
    assert pieceLength == pieceLength / BLOCK_SIZE * BLOCK_SIZE + pieceLength % BLOCK_SIZE;
  }

  /** All blocks but the last one have 16384 bytes. */
  lemma BlockSizes(pieceIndex: nat, pieceLength: nat, i: nat)
    requires i < |Partition(pieceIndex, pieceLength)|
    ensures var s := Partition(pieceIndex, pieceLength);
            s[i].blockLength == if i < |s| - 1 || pieceLength % 16384 == 0 then 16384 else pieceLength % 16384
  {
  }

  /** Blocks laid end to end are in increasing, disjoint positions. */
  lemma {:induction false} EndToEndOrder(s: seq<BlockMetadata>, total: nat, i: nat, j: nat)
    requires EndToEnd(s, total) && i < j < |s|
    ensures s[i].End() <= s[j].blockOffset
    decreases j
  {
    if i < j - 1 {
      EndToEndOrder(s, total, i, j - 1);
    }
  }

  /** Blocks laid end to end stay inside the total. */
  lemma EndToEndInside(s: seq<BlockMetadata>, total: nat, i: nat)
    requires EndToEnd(s, total) && i < |s|
    ensures s[i].End() <= total
  {
    if i < |s| - 1 {
      EndToEndOrder(s, total, i, |s| - 1);
    }
  }

  /** Two different blocks of a partition differ in their offsets. */
  lemma PartitionDistinct(pieceIndex: nat, pieceLength: nat)
    ensures NoDuplicates(Partition(pieceIndex, pieceLength))
    ensures var s := Partition(pieceIndex, pieceLength);
            forall a, b :: a in s && b in s && a.blockOffset == b.blockOffset ==> a == b
  {
    var s := Partition(pieceIndex, pieceLength);
    PartitionEndToEnd(pieceIndex, pieceLength);
    forall i, j | 0 <= i < j < |s|
      ensures s[i].blockOffset < s[j].blockOffset
    {
      EndToEndOrder(s, pieceLength, i, j);
    }
  }
}
