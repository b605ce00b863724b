/** A whole torrent from one honest seeder: the download completes, and every piece passes the hash check
    (src/peer/piece.rs, src/disk/manager.rs). */
module Completion {
  import opened Messages
  import opened Blocks
  import opened Layout
  import opened Swarm
  import opened Seeders
  import H = PieceHandlers
  import D = Downloads

  /** What a seeder with the content sends for a block. */
  function CutOut(t: Torrent, m: BlockMetadata): (data: Bytes)
    ensures |data| == m.blockLength
  {
    var from := Place(t, m);
    if from + m.blockLength <= |t.content| then t.content[from..from + m.blockLength] else seq(m.blockLength, _ => 0)
  }

  function Sends(t: Torrent): BlockMetadata -> Bytes {
    m => CutOut(t, m)
  }

  lemma SendsGenuine(t: Torrent, m: BlockMetadata)
    requires t.Valid() && t.HasBlock(m)
    ensures Genuine(t, Block(m, CutOut(t, m)))
  {
    BlockInside(t, m);
    hide Torrent.HasBlock;
  }

  function NoneOwned(n: nat): (bits: seq<bool>)
    ensures |bits| == n && forall i :: 0 <= i < n ==> !bits[i]
  {
    seq(n, _ => false)
  }

  lemma {:induction false} AllAreMissing(bits: seq<bool>)
    requires forall i :: 0 <= i < |bits| ==> !bits[i]
    ensures D.Missing(bits) == |bits|
  {
    if bits != [] {
      AllAreMissing(bits[1..]);
    }
  }

  /** A scheduler of the torrent that has nothing yet. */
  function Empty(t: Torrent, strategy: H.PieceSelection): H.Handler
    requires t.pieceLength > 0
  {
    H.Init(strategy, NoneOwned(t.PieceCount()), t.pieceLength,
           LastPieceLength(|t.content|, t.PieceCount(), t.pieceLength))
  }

  lemma DialogueIsHonest(t: Torrent, h: H.Handler, es: seq<D.Event>, p: PieceBuffers.PeerId, k: nat, i: nat)
    requires t.Valid() && From(es, p, Sends(t)) && k <= |es|
    ensures Honest(h, es[..k], t, i)
  {
    hide D.Run, Torrent.HasBlock;
    forall b | D.WasDelivered(h, es[..k], b) && t.HasBlock(b.metadata)
      ensures Genuine(t, b)
    {
      var l: nat :| D.Delivered(h, es[..k], l, b);
      assert es[l] in es;
      assert b == Block(b.metadata, CutOut(t, b.metadata));
      SendsGenuine(t, b.metadata);
    }
  }

  /** Piece `k` of the outputs is the chunk that was hashed, and a manager that knows the torrent accepts it. */
  ghost predicate RightPiece(t: Torrent, piece: Block)
    requires t.Valid()
  {
    && WholePiece(t, piece.metadata) && piece.data == Chunk(t, piece.metadata.pieceIndex)
    && forall d: DiskManagers.Disk, id :: Knows(d, id, t) ==> d.IsGoodPiece(id, piece)
  }

  lemma PieceIsRight(t: Torrent, h: H.Handler, es: seq<D.Event>, p: PieceBuffers.PeerId, k: nat)
    requires For(h, t) && D.Inv(h) && h.buffer.None? && Dialogue(h, es, p, Sends(t)) && k < |es|
    requires D.IsPiece(D.Run(h, es).1[k])
    ensures RightPiece(t, D.Run(h, es).1[k].state.piece.value)
  {
    hide D.Run, D.Inv, D.AdmissibleRun, Honest, CollisionFree, DiskManagers.Disk.IsGoodPiece, Knows;
    var piece := D.Run(h, es).1[k].state.piece.value;
    DialogueIsHonest(t, h, es, p, k, piece.metadata.pieceIndex);
    DownloadIsTheContent(t, h, es, k);
    forall d: DiskManagers.Disk, id | Knows(d, id, t)
      ensures d.IsGoodPiece(id, piece)
    {
      HashCheckExact(t, d, id, piece);
    }
  }

  /** For every torrent: from nothing, with one seeder that has the content, there is an admissible run that ends with
      `Finished`; it reports as many pieces as the torrent has, no two alike, each of them the chunk that was hashed,
      and each passes the hash check. */
  lemma TorrentCompletes(t: Torrent, strategy: H.PieceSelection, p: PieceBuffers.PeerId) returns (es: seq<D.Event>)
    requires t.Valid()
    ensures Completes(Empty(t, strategy), es, p, Sends(t))
    ensures var outs := D.Run(Empty(t, strategy), es).1;
            && D.Count(outs[..|es| - 1], D.IsPiece) == t.PieceCount()
            && (forall k :: 0 <= k < |es| && D.IsPiece(outs[k]) ==> RightPiece(t, outs[k].state.piece.value))
            && (forall k, l :: 0 <= k < l < |es| && D.IsPiece(outs[k]) && D.IsPiece(outs[l]) ==>
                  outs[k].state.piece.value.metadata.pieceIndex != outs[l].state.piece.value.metadata.pieceIndex)
  {
    var h := Empty(t, strategy);
    var n := t.PieceCount();
    CountBounds(t);
    assert !NoneOwned(n)[0];
    AllAreMissing(NoneOwned(n));
    var bits := seq(n, _ => true);
    D.InitIsFine(strategy, NoneOwned(n), t.pieceLength, LastPieceLength(|t.content|, n, t.pieceLength));
    hide D.Run, D.Inv, D.Count, RightPiece, Dialogue;
    es := OneSeederSuffices(strategy, NoneOwned(n), t.pieceLength, LastPieceLength(|t.content|, n, t.pieceLength),
                            p, bits, Sends(t));
    forall k | 0 <= k < |es| && D.IsPiece(D.Run(h, es).1[k])
      ensures RightPiece(t, D.Run(h, es).1[k].state.piece.value)
    {
      PieceIsRight(t, h, es, p, k);
    }
    DialogueIsOwned(h, es, p, Sends(t));
    D.DownloadCompletion(h, es);
  }

  lemma DialogueIsOwned(h: H.Handler, es: seq<D.Event>, p: PieceBuffers.PeerId, send: BlockMetadata -> Bytes)
    requires Dialogue(h, es, p, send)
    ensures D.AdmissibleRun(h, es) && D.OwnedRun(h, es)
  {
    hide D.AdmissibleRun;
    NeverAcknowledged(h, es);
  }
}
