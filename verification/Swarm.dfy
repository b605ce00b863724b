/** The whole way of a byte: hashed by the builder, read from one peer's disk, sent, decoded, assembled,
    checked and written by another (src/torrent/builder.rs, src/proto/codec.rs, src/peer/piece.rs,
    src/disk/manager.rs). */
module Swarm {
  import opened Collections
  import opened Messages
  import opened Blocks
  import opened Layout
  import Builder
  import Codec
  import Framing
  import PieceHandlers
  import Downloads
  import DiskFiles
  import DiskJobs
  import DiskManagers
  import DiskRuns
  import Provenance
  import WrittenLog
  import DiskHistories
  import WholeWrites

  /** The block carries the bytes of the content at its place. */
  ghost predicate Genuine(t: Torrent, b: Block) {
    b.IsCorrectLen() && SliceIs(t.content, Place(t, b.metadata), b.data)
  }

  function PieceStart(t: Torrent, i: nat): nat {
    i * t.pieceLength
  }

  function Place(t: Torrent, m: BlockMetadata): nat {
    PieceStart(t, m.pieceIndex) + m.blockOffset
  }

  // ---------------------------------------------------------------- the wire

  /** Positions in the torrent fit the 32-bit fields of a message. */
  ghost predicate FitsTheWire(t: Torrent) {
    t.Valid() && t.PieceCount() <= TWO32 && t.pieceLength <= TWO32
  }

  /** Sending a genuine block of the torrent yields that block, and the message is safe on the wire. */
  lemma SentIsReceived(t: Torrent, b: Block)
    requires FitsTheWire(t) && t.HasBlock(b.metadata) && Genuine(t, b)
    ensures FromPiece(IntoPiece(b)) == b && Codec.WireSafe(IntoPiece(b)) && IntoPiece(b).Sized()
  {
    var m := b.metadata;
    BlockInside(t, m);
    PartitionEndToEnd(m.pieceIndex, t.LengthOf(m.pieceIndex));
    hide Place, SliceIs, Torrent.LengthOf, Partition, PieceStart;
    BlockWireRoundTrip(b);
  }

  function PieceMessages(blocks: seq<Block>): (ms: seq<PeerMessage>)
    ensures |ms| == |blocks| && forall i :: 0 <= i < |ms| ==> ms[i] == IntoPiece(blocks[i])
  {
    seq(|blocks|, i requires 0 <= i < |blocks| => IntoPiece(blocks[i]))
  }

  /** However many genuine blocks are sent in one stream, they all arrive, unchanged and in order. */
  lemma StreamOfBlocks(t: Torrent, blocks: seq<Block>)
    requires FitsTheWire(t)
    requires forall i :: 0 <= i < |blocks| ==> t.HasBlock(blocks[i].metadata) && Genuine(t, blocks[i])
    ensures var r := Framing.DecodeAll(Framing.EncodeAll(PieceMessages(blocks)));
            && |r.msgs| == |blocks| && r.rest == []
            && forall i :: 0 <= i < |blocks| ==> r.msgs[i].Piece? && FromPiece(r.msgs[i]) == blocks[i]
  {
    var ms := PieceMessages(blocks);
    forall i | 0 <= i < |blocks|
      ensures FromPiece(ms[i]) == blocks[i] && Codec.WireSafe(ms[i]) && ms[i].Sized()
    {
      SentIsReceived(t, blocks[i]);
    }
    hide Genuine, FitsTheWire, IntoPiece, FromPiece, Codec.WireSafe;
    Framing.StreamRoundTrip(ms, []);
    assert Framing.EncodeAll(ms) + [] == Framing.EncodeAll(ms);
    assert Framing.DecodeAll([]) == Framing.Reader([], Codec.NeedMore, []);
    assert ms + [] == ms;
  }

  // ---------------------------------------------------------------- the download

  /** The handler was made for the torrent. */
  ghost predicate For(h: PieceHandlers.Handler, t: Torrent) {
    && t.Valid() && |h.bitfield| == t.PieceCount() && h.pieceLength == t.pieceLength
    && h.lastPieceLength == LastPieceLength(|t.content|, t.PieceCount(), t.pieceLength)
  }

  lemma StepIsFor(h: PieceHandlers.Handler, e: Downloads.Event, t: Torrent)
    requires For(h, t)
    ensures For(Downloads.Step(h, e).0, t)
  {
    hide PieceHandlers.Handler.NextPieceBuffer;
  }

  lemma {:induction false} RunIsFor(h: PieceHandlers.Handler, es: seq<Downloads.Event>, t: Torrent)
    requires For(h, t)
    ensures For(Downloads.Run(h, es).0, t)
    decreases |es|
  {
    hide Downloads.Step, For;
    if es != [] {
      StepIsFor(h, es[0], t);
      RunIsFor(Downloads.Step(h, es[0]).0, es[1..], t);
    }
  }

  /** Every block that was accepted for piece `i`, and has the right length, is genuine. */
  ghost predicate Honest(h: PieceHandlers.Handler, es: seq<Downloads.Event>, t: Torrent, i: nat)
    requires t.pieceLength > 0
  {
    forall b :: Downloads.WasDelivered(h, es, b) && b.metadata.pieceIndex == i && b.IsCorrectLen()
                && t.HasBlock(b.metadata) ==>
      Genuine(t, b)
  }

  /** The block is a whole piece of the torrent, as the scheduler hands it to the disk. */
  predicate WholePiece(t: Torrent, m: BlockMetadata)
    requires t.pieceLength > 0
  {
    m.pieceIndex < t.PieceCount() && m == BlockMetadata(m.pieceIndex, 0, t.LengthOf(m.pieceIndex))
  }

  /** The chunk of the content that the builder hashed as piece `i`. */
  function Chunk(t: Torrent, i: nat): Bytes
    requires t.pieceLength > 0 && i < t.PieceCount()
  {
    Builder.Chunks(t.content, t.pieceLength)[i]
  }

  lemma ChunkBytes(t: Torrent, i: nat)
    requires t.Valid() && i < t.PieceCount()
    ensures |Chunk(t, i)| == t.LengthOf(i) && PieceStart(t, i) + t.LengthOf(i) <= |t.content|
    ensures Chunk(t, i) == t.content[PieceStart(t, i)..PieceStart(t, i) + t.LengthOf(i)]
  {
    PieceLengths(t, i);
    Builder.ChunkAt(t.content, t.pieceLength, i);
  }

  /** At the place of `m`, the data of a piece holds a genuine block. */
  ghost predicate HoldsGenuine(t: Torrent, data: Bytes, m: BlockMetadata) {
    exists b: Block :: b.metadata == m && Genuine(t, b) && SliceIs(data, m.blockOffset, b.data)
  }

  lemma GenuineByte(t: Torrent, data: Bytes, m: BlockMetadata, y: nat)
    requires HoldsGenuine(t, data, m) && m.blockOffset <= y < m.End()
    ensures y < |data| && PieceStart(t, m.pieceIndex) + y < |t.content|
    ensures data[y] == t.content[PieceStart(t, m.pieceIndex) + y]
  {
    hide PieceStart;
    var b: Block :| b.metadata == m && Genuine(t, b) && SliceIs(data, m.blockOffset, b.data);
    SameByte(data, m.blockOffset, t.content, Place(t, m), b.data, y - m.blockOffset);
  }

  /** Data that is genuine block by block is the chunk. */
  lemma BlockwiseGenuine(t: Torrent, i: nat, data: Bytes)
    requires t.Valid() && i < t.PieceCount() && |data| == t.LengthOf(i)
    requires forall m :: m in t.BlocksOf(i) ==> HoldsGenuine(t, data, m)
    ensures data == Chunk(t, i)
  {
    hide Torrent.LengthOf, Torrent.BlocksOf, Chunk, Partition, EndToEnd, HoldsGenuine, Builder.Chunks,
      PieceStart;
    ChunkBytes(t, i);
    var chunk := Chunk(t, i);
    forall y | 0 <= y < |data|
      ensures data[y] == chunk[y]
    {
      GenuineInPiece(t, i, data, y);
      assert chunk[y] == t.content[PieceStart(t, i) + y];
    }
  }

  lemma GenuineInPiece(t: Torrent, i: nat, data: Bytes, y: nat)
    requires t.Valid() && i < t.PieceCount() && y < |data| == t.LengthOf(i)
    requires forall m :: m in t.BlocksOf(i) ==> HoldsGenuine(t, data, m)
    ensures PieceStart(t, i) + y < |t.content| && data[y] == t.content[PieceStart(t, i) + y]
  {
    hide Torrent.LengthOf, Partition, EndToEnd, HoldsGenuine, PieceStart;
    PartitionEndToEnd(i, t.LengthOf(i));
    var m := FindBlock(t.BlocksOf(i), t.LengthOf(i), y);
    GenuineByte(t, data, m, y);
  }

  lemma SameByte(a: Bytes, i: nat, b: Bytes, j: nat, part: Bytes, k: nat)
    requires SliceIs(a, i, part) && SliceIs(b, j, part) && k < |part|
    ensures a[i + k] == part[k] == b[j + k]
  {
    SliceByIndex(a, i, part);
    SliceByIndex(b, j, part);
  }

  /** Whatever the interleaving, a piece assembled from genuine blocks is the chunk the builder hashed. */
  lemma DownloadIsTheContent(t: Torrent, h: PieceHandlers.Handler, es: seq<Downloads.Event>, k: nat)
    requires For(h, t) && Downloads.Inv(h) && h.buffer.None? && Downloads.AdmissibleRun(h, es) && k < |es|
    requires Downloads.IsPiece(Downloads.Run(h, es).1[k])
    requires Honest(h, es[..k], t, Downloads.Run(h, es).1[k].state.piece.value.metadata.pieceIndex)
    ensures var piece := Downloads.Run(h, es).1[k].state.piece.value;
            var i := piece.metadata.pieceIndex;
            && WholePiece(t, piece.metadata) && piece.data == Chunk(t, i) && Genuine(t, piece)
  {
    Downloads.ReassemblyOverRuns(h, es, k);
    RunIsFor(h, es[..k], t);
    hide Downloads.Run, Downloads.Inv, Downloads.AdmissibleRun, Downloads.WasDelivered, Partition;
    var piece := Downloads.Run(h, es).1[k].state.piece.value;
    var i := piece.metadata.pieceIndex;
    forall m | m in t.BlocksOf(i)
      ensures HoldsGenuine(t, piece.data, m)
    {
      assert Downloads.MadeOf(h, es[..k], piece, m);
      PartitionEndToEnd(i, t.LengthOf(i));
    }
    BlockwiseGenuine(t, i, piece.data);
    ChunkBytes(t, i);
  }

  // ---------------------------------------------------------------- the hash check

  function Digests(hashes: seq<Builder.Hasher>, sha: Bytes -> DiskFiles.Digest): (ds: seq<DiskFiles.Digest>)
    ensures |ds| == |hashes| && forall i :: 0 <= i < |ds| ==> ds[i] == sha(hashes[i].fed)
  {
    seq(|hashes|, i requires 0 <= i < |hashes| => sha(hashes[i].fed))
  }

  lemma {:induction false} HashAllAt(chunks: seq<Bytes>, i: nat)
    ensures |Builder.HashAll(chunks)| == |chunks|
    ensures i < |chunks| ==> Builder.HashAll(chunks)[i].fed == chunks[i]
    decreases |chunks|
  {
    if chunks != [] {
      HashAllAt(chunks[1..], if i == 0 then 0 else i - 1);
    }
  }

  /** The manager knows the torrent under `id`, with the hashes that the builder computes. */
  ghost predicate Knows(d: DiskManagers.Disk, id: DiskFiles.TorrentId, t: Torrent) {
    && t.Valid() && id in d.torrents && d.torrents[id].pieceLength == t.pieceLength
    && d.torrents[id].pieces == Digests(Builder.HashAll(Builder.Chunks(t.content, t.pieceLength)), d.sha)
  }

  /** The digest of a chunk belongs to that chunk alone. */
  ghost predicate CollisionFree(sha: Bytes -> DiskFiles.Digest, chunk: Bytes) {
    forall x :: sha(x) == sha(chunk) ==> x == chunk
  }

  /** The hash check lets the chunk itself through and, unless the hash collides, nothing else. */
  lemma HashCheckExact(t: Torrent, d: DiskManagers.Disk, id: DiskFiles.TorrentId, piece: Block)
    requires Knows(d, id, t)
    ensures d.IsGoodPiece(id, piece) ==> piece.metadata.pieceIndex < t.PieceCount()
    ensures piece.metadata.pieceIndex < t.PieceCount() && piece.data == Chunk(t, piece.metadata.pieceIndex) ==>
              d.IsGoodPiece(id, piece)
    ensures piece.metadata.pieceIndex < t.PieceCount() && CollisionFree(d.sha, Chunk(t, piece.metadata.pieceIndex)) ==>
              (d.IsGoodPiece(id, piece) <==> piece.data == Chunk(t, piece.metadata.pieceIndex))
  {
    HashAllAt(Builder.Chunks(t.content, t.pieceLength), piece.metadata.pieceIndex);
  }

  // ---------------------------------------------------------------- the disk

  /** A torrent of one file, as the manager keeps it. */
  ghost predicate KnowsSingle(d: DiskManagers.Disk, id: DiskFiles.TorrentId, t: Torrent) {
    Knows(d, id, t) && d.torrents[id].files == DiskFiles.Entries(id, [|t.content|], 0, 0)
  }

  function TheFile(id: DiskFiles.TorrentId, t: Torrent): DiskFiles.FileEntry {
    DiskFiles.FileEntry(DiskFiles.FileId(id, 0), 0, |t.content|)
  }

  /** Every piece of a torrent of one file lies in that file. */
  lemma PieceIsPlaced(t: Torrent, d: DiskManagers.Disk, id: DiskFiles.TorrentId, i: nat)
    requires KnowsSingle(d, id, t) && i < t.PieceCount()
    ensures WrittenLog.Placed(d.torrents, id, BlockMetadata(i, 0, t.LengthOf(i)), TheFile(id, t))
  {
    HashAllAt(Builder.Chunks(t.content, t.pieceLength), i);
    ChunkBytes(t, i);
    PieceLengths(t, i);
    DiskHistories.SingleFileIsPlaced(d.torrents, id, |t.content|, BlockMetadata(i, 0, t.LengthOf(i)));
  }

  /** A part of a genuine piece is genuine. */
  lemma CutIsGenuine(t: Torrent, piece: Block, m: BlockMetadata)
    requires Genuine(t, piece) && DiskHistories.Within(m, piece.metadata)
    ensures piece.metadata.blockLength <= |piece.data|
    ensures Genuine(t, Block(m, DiskHistories.Cut(piece, m)))
  {
    var start, from := Place(t, piece.metadata), m.blockOffset - piece.metadata.blockOffset;
    assert Place(t, m) == start + from;
    var part := DiskHistories.Cut(piece, m);
    SliceByIndex(t.content, start, piece.data);
    SliceByIndex(t.content, start + from, part);
    hide SliceIs;
    forall k | 0 <= k < |part|
      ensures t.content[start + from + k] == part[k]
    {
      assert t.content[start + (from + k)] == piece.data[from + k];
    }
  }

  /** A result reports a whole piece of a known torrent as written, and the hash does not collide there. */
  ghost predicate WritesPiece(t: Torrent, id: DiskFiles.TorrentId, before: DiskManagers.Disk, r: DiskManagers.Result) {
    && Knows(before, id, t) && r.Answer? && r.out.PieceWritten? && r.out.torrent == id
    && WholePiece(t, r.out.block.metadata) && CollisionFree(before.sha, Chunk(t, r.out.block.metadata.pieceIndex))
  }

  lemma StepWritesGenuine(t: Torrent, id: DiskFiles.TorrentId, d: DiskManagers.Disk, e: DiskRuns.Event)
    requires Provenance.Sound(d) && WritesPiece(t, id, d, DiskRuns.Step(d, e).1)
    ensures Genuine(t, DiskRuns.Step(d, e).1.out.block)
  {
    hide Provenance.Sound, DiskRuns.Step, CollisionFree, DiskManagers.Disk.IsGoodPiece;
    var piece := DiskRuns.Step(d, e).1.out.block;
    Provenance.WrittenIsGood(d, e);
    HashCheckExact(t, d, id, piece);
    ChunkIsGenuine(t, piece);
  }

  lemma ChunkIsGenuine(t: Torrent, piece: Block)
    requires t.Valid() && WholePiece(t, piece.metadata)
    ensures Genuine(t, piece) <==> piece.data == Chunk(t, piece.metadata.pieceIndex)
  {
    ChunkBytes(t, piece.metadata.pieceIndex);
  }

  /** Whatever peers have sent, whatever the file system and the cache do: in every run of a new manager a whole piece
      that is reported written is genuine. */
  lemma WrittenIsGenuine(t: Torrent, id: DiskFiles.TorrentId, capacity: nat, files: DiskJobs.Files,
                         sha: Bytes -> DiskFiles.Digest, es: seq<DiskRuns.Event>, i: nat)
    requires Provenance.PossibleRun(es) && i < |es|
    requires var d := Provenance.NewDisk(capacity, files, sha);
             WritesPiece(t, id, DiskRuns.StateAt(d, es, i), DiskRuns.Run(d, es).1[i])
    ensures Genuine(t, DiskRuns.Run(Provenance.NewDisk(capacity, files, sha), es).1[i].out.block)
  {
    hide Provenance.Sound, Provenance.PossibleRun, DiskRuns.Step, DiskRuns.Run, Genuine;
    var d := Provenance.NewDisk(capacity, files, sha);
    Provenance.NewDiskIsSound(capacity, files, sha);
    Provenance.SoundOverRuns(d, es, i);
    DiskRuns.RunStep(d, es, i);
    StepWritesGenuine(t, id, DiskRuns.StateAt(d, es, i), es[i]);
  }

  /** Event `i` writes a piece of the torrent of one file, and event `j` reads a block of that piece. */
  ghost predicate WritesThenReads(t: Torrent, id: DiskFiles.TorrentId, d: DiskManagers.Disk, es: seq<DiskRuns.Event>,
                                  i: nat, j: nat)
    requires i < j < |es|
  {
    var (before, written, read) := (DiskRuns.StateAt(d, es, i), DiskRuns.Run(d, es).1[i], DiskRuns.Run(d, es).1[j]);
    && WritesPiece(t, id, before, written) && KnowsSingle(before, id, t)
    && read.Answer? && read.out.BlockRead? && read.out.torrent == id && t.HasBlock(read.out.block.metadata)
    && read.out.block.metadata.pieceIndex == written.out.block.metadata.pieceIndex
  }

  /** A block that is genuine and reaches the next peer unchanged. */
  ghost predicate Seedable(t: Torrent, block: Block) {
    Genuine(t, block) && FromPiece(IntoPiece(block)) == block && Codec.WireSafe(IntoPiece(block))
  }

  lemma SysIsSound(s: WrittenLog.Sys)
    requires WrittenLog.SysInv(s)
    ensures Provenance.Sound(s.disk)
  {
  }

  /** From disk to disk. Once a piece is reported written, however the disk manager goes on, every block of it
      that is read later carries the bytes of the content and reaches the next peer unchanged. */
  lemma SeedingIsGenuine(t: Torrent, id: DiskFiles.TorrentId, s: WrittenLog.Sys, es: seq<DiskRuns.Event>,
                         i: nat, j: nat)
    requires WrittenLog.SysInv(s) && DiskHistories.AllowedRun(s, es) && FitsTheWire(t)
    requires i < j < |es| && WritesThenReads(t, id, s.disk, es, i, j)
    ensures Seedable(t, DiskRuns.Run(s.disk, es).1[j].out.block)
  {
    hide WrittenLog.SysInv, DiskHistories.AllowedRun, DiskRuns.Run, DiskRuns.Step, WrittenLog.Placed, Codec.WireSafe,
      CollisionFree, Provenance.Sound;
    DiskHistories.InvariantOverRuns(s, es, i);
    SysIsSound(DiskHistories.Before(s, es, i));
    DiskRuns.RunStep(s.disk, es, i);
    StepWritesGenuine(t, id, DiskRuns.StateAt(s.disk, es, i), es[i]);
    var piece, read := DiskRuns.Run(s.disk, es).1[i].out.block, DiskRuns.Run(s.disk, es).1[j].out.block;
    PieceIsPlaced(t, DiskRuns.StateAt(s.disk, es, i), id, piece.metadata.pieceIndex);
    BlockIsWithin(t, read.metadata, piece.metadata);
    DiskHistories.ReadAfterWrite(s, es, i, j, TheFile(id, t));
    CutIsGenuine(t, piece, read.metadata);
    SentIsReceived(t, read);
  }

  /** From a new manager: the pieces may come from any peers, be written in any order and be written again. As
      long as requests to write are for whole pieces in one file, everything read of a written piece is genuine. */
  lemma SeedingFromTheStart(t: Torrent, id: DiskFiles.TorrentId, capacity: nat, files: DiskJobs.Files,
                            sha: Bytes -> DiskFiles.Digest, es: seq<DiskRuns.Event>, i: nat, j: nat)
    requires WholeWrites.CarefulRun(Provenance.NewDisk(capacity, files, sha), es) && FitsTheWire(t)
    requires i < j < |es| && WritesThenReads(t, id, Provenance.NewDisk(capacity, files, sha), es, i, j)
    ensures Seedable(t, DiskRuns.Run(Provenance.NewDisk(capacity, files, sha), es).1[j].out.block)
  {
    hide WrittenLog.SysInv, WholeWrites.Orderly, WholeWrites.CarefulRun, DiskHistories.AllowedRun, DiskRuns.Run,
      WritesThenReads, Seedable;
    var s := DiskHistories.Initial(capacity, files, sha);
    DiskHistories.InitialIsFine(capacity, files, sha);
    WholeWrites.InitialIsOrderly(capacity, files, sha);
    WholeWrites.WholeWritesAreAllowed(s, es);
    SeedingIsGenuine(t, id, s, es, i, j);
  }

  lemma BlockIsWithin(t: Torrent, m: BlockMetadata, piece: BlockMetadata)
    requires t.Valid() && t.HasBlock(m) && WholePiece(t, piece) && m.pieceIndex == piece.pieceIndex
    ensures DiskHistories.Within(m, piece)
  {
    BlockInside(t, m);
    PartitionEndToEnd(m.pieceIndex, t.LengthOf(m.pieceIndex));
  }

  /** What the scheduler reports is a whole piece. */
  lemma AssembledIsWhole(t: Torrent, h: PieceHandlers.Handler, es: seq<Downloads.Event>, k: nat)
    requires For(h, t) && Downloads.Inv(h) && h.buffer.None? && Downloads.AdmissibleRun(h, es) && k < |es|
    requires Downloads.IsPiece(Downloads.Run(h, es).1[k])
    ensures var piece := Downloads.Run(h, es).1[k].state.piece.value;
            WholePiece(t, piece.metadata) && WholeWrites.Whole(piece)
  {
    hide Downloads.Run, Downloads.Inv, Downloads.AdmissibleRun, Downloads.MadeOf, Partition;
    Downloads.ReassemblyOverRuns(h, es, k);
    RunIsFor(h, es[..k], t);
  }

  /** What the disk accepts from the scheduler: a piece assembled in any admissible run passes the hash
      check of a manager that knows the torrent if and only if it is the chunk of the content, as long as the
      hash does not collide there. Genuine blocks always make such a piece. */
  lemma AssembledPieceIsAccepted(t: Torrent, h: PieceHandlers.Handler, es: seq<Downloads.Event>, k: nat,
                                 d: DiskManagers.Disk, id: DiskFiles.TorrentId)
    requires For(h, t) && Downloads.Inv(h) && h.buffer.None? && Downloads.AdmissibleRun(h, es) && k < |es|
    requires Downloads.IsPiece(Downloads.Run(h, es).1[k]) && Knows(d, id, t)
    ensures var piece := Downloads.Run(h, es).1[k].state.piece.value;
            var i := piece.metadata.pieceIndex;
            && WholePiece(t, piece.metadata) && WholeWrites.Whole(piece)
            && (Honest(h, es[..k], t, i) ==> d.IsGoodPiece(id, piece) && Genuine(t, piece))
            && (CollisionFree(d.sha, Chunk(t, i)) ==> (d.IsGoodPiece(id, piece) <==> Genuine(t, piece)))
  {
    hide Downloads.Run, Downloads.Inv, Downloads.AdmissibleRun, Honest, Genuine, CollisionFree,
      DiskManagers.Disk.IsGoodPiece;
    var piece := Downloads.Run(h, es).1[k].state.piece.value;
    AssembledIsWhole(t, h, es, k);
    ChunkIsGenuine(t, piece);
    HashCheckExact(t, d, id, piece);
    if Honest(h, es[..k], t, piece.metadata.pieceIndex) {
      DownloadIsTheContent(t, h, es, k);
    }
  }
}
