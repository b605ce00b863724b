/** What happens when the conditions of the scheduler are not met: a block is lost, and the download stalls for good
    (src/peer/piece.rs, src/peer/torrent.rs). */
module LostBlocks {
  import opened Collections
  import opened Blocks
  import opened PieceBuffers
  import opened PieceHandlers
  import opened Downloads

  /** The blocks a buffer still knows about. */
  function Known(b: Buffer): nat {
    |b.missing| + |b.pending| + |b.blocks|
  }

  /** The handler works on a piece of which a block is lost. */
  predicate Short(h: Handler) {
    h.buffer.Some? && Known(h.buffer.value) < h.buffer.value.totalBlocks
  }

  // ---------------------------------------------------------------- losing a block

  /** A busy peer that is listed as idle gets a second request, and the first is forgotten. */
  lemma OverwriteLoses(b: Buffer, p: PeerId)
    requires Conserved(b) && p in b.pending && b.missing != []
    ensures var listed := b.(peers := b.peers + [p]);
            !listed.IsFull() && Known(listed.Next().0) < b.totalBlocks && listed.Next().0.totalBlocks == b.totalBlocks
  {
    FullMeansReceived(b);
    hide Conserved;
    var listed := b.(peers := b.peers + [p]);
    var b' := listed.Next().0;
    assert b'.pending.Keys == b.pending.Keys;
    assert |b'.pending| == |b'.pending.Keys| && |b.pending| == |b.pending.Keys|;
  }

  /** A second unchoke of a busy peer lists it as idle, and the next poll overwrites its outstanding request. */
  lemma SecondUnchokeLosesABlock(h: Handler, p: PeerId, order: seq<nat>, ids: seq<PeerId>)
    requires Inv(h) && h.buffer.Some?
    requires p in h.buffer.value.pending && h.buffer.value.missing != []
    requires !Admissible(h, RemoteChoke(p, false))
    ensures var h' := h.SetRemoteChoke(p, false).Poll(order, ids).0; Short(h') && !Conserved(h'.buffer.value)
  {
    OverwriteLoses(h.buffer.value, p);
    hide Conserved, Disciplined, Unchoked;
    ShortIsUnbalanced(h.SetRemoteChoke(p, false).Poll(order, ids).0);
  }

  lemma ShortIsUnbalanced(h: Handler)
    requires Short(h)
    ensures !Conserved(h.buffer.value)
  {
    if Conserved(h.buffer.value) {
      FullMeansReceived(h.buffer.value);
      assert false;
    }
  }

  /** A new handshake of a tracked, busy peer replaces its record by a choked one; once the peer has said again what
      it has and unchokes, the next poll overwrites its outstanding request. */
  lemma HandshakeLosesABlock(h: Handler, p: PeerId, record: Peer, order: seq<nat>, ids: seq<PeerId>)
    requires Inv(h) && h.buffer.Some?
    requires p in h.buffer.value.pending && h.buffer.value.missing != []
    requires record.remoteChoked && record.(remoteChoked := false).RemoteCanSeedPiece(h.buffer.value.pieceIndex)
    ensures var h1 := Step(h, InsertPeer(p, FRESH_PEER)).0;
            && Possible(h1, UpdatePeer(p, record))
            && var h2 := Step(Step(h1, UpdatePeer(p, record)).0, RemoteChoke(p, false)).0;
               var h' := h2.Poll(order, ids).0;
               Short(h') && !Conserved(h'.buffer.value)
  {
    var b := h.buffer.value;
    assert b.Knows(p) && p in h.peers;
    OverwriteLoses(b, p);
    hide Conserved, Disciplined, Unchoked;
    var h1 := Step(h, InsertPeer(p, FRESH_PEER)).0;
    var h2 := Step(Step(h1, UpdatePeer(p, record)).0, RemoteChoke(p, false)).0;
    assert h2.buffer == Some(b.(peers := b.peers + [p]));
    ShortIsUnbalanced(h2.Poll(order, ids).0);
  }

  // ---------------------------------------------------------------- for good

  lemma NextKnowsNoMore(b: Buffer)
    ensures Known(b.Next().0) <= Known(b) && b.Next().0.totalBlocks == b.totalBlocks
  {
    if b.peers != [] && b.missing != [] {
      PutSize(b.pending, b.peers[|b.peers| - 1], b.missing[|b.missing| - 1]);
    }
  }

  lemma PutSize<K, V>(m: map<K, V>, k: K, v: V)
    ensures |m[k := v]| <= |m| + 1
  {
    assert m[k := v].Keys == m.Keys + {k};
    assert |m.Keys + {k}| <= |m.Keys| + 1;
  }

  lemma DropSize<K, V>(m: map<K, V>, k: K)
    requires k in m
    ensures |m - {k}| == |m| - 1
  {
    assert (m - {k}).Keys == m.Keys - {k};
  }

  lemma RemoveKnowsNoMore(b: Buffer, p: PeerId)
    ensures Known(b.RemovePeer(p)) <= Known(b) && b.RemovePeer(p).totalBlocks == b.totalBlocks
  {
    if p in b.pending {
      DropSize(b.pending, p);
    }
  }

  lemma AddKnowsNoMore(b: Buffer, p: PeerId, block: Block)
    ensures Known(b.AddBlock(p, block).0) <= Known(b) && b.AddBlock(p, block).0.totalBlocks == b.totalBlocks
  {
    if p in b.pending {
      DropSize(b.pending, p);
      PutSize(b.blocks, block.metadata.blockOffset, block);
    }
  }

  /** Whatever happens, a block that is lost stays lost: the buffer never counts as full, and the handler never
      reports a piece, let alone that it has finished. */
  lemma StepStaysShort(h: Handler, e: Event)
    requires Short(h)
    ensures Short(Step(h, e).0)
    ensures Step(h, e).1.Polled? ==> Step(h, e).1.state.LeechBlock?
  {
    hide Buffer.Next, Buffer.RemovePeer, Buffer.AddBlock, Buffer.Finalize, Handler.NextPieceBuffer;
    var b := h.buffer.value;
    match e
    case Poll(_, _) => NextKnowsNoMore(b);
    case RemoteChoke(p, _) => RemoveKnowsNoMore(b, p);
    case DropPeer(p) => RemoveKnowsNoMore(b, p);
    case BlockResponse(p, block) => AddKnowsNoMore(b, p, block);
    case InsertPeer(_, _) =>
    case Acknowledge(_) =>
    case UpdatePeer(_, _) =>
  }

  /** The download stalls for good: in no continuation, admissible or not, is a piece ever reported again. */
  lemma {:induction false} StalledForGood(h: Handler, es: seq<Event>)
    requires Short(h)
    ensures Short(Run(h, es).0)
    ensures forall i :: 0 <= i < |es| && Run(h, es).1[i].Polled? ==> Run(h, es).1[i].state.LeechBlock?
    decreases |es|
  {
    hide Step, Short;
    if es != [] {
      StepStaysShort(h, es[0]);
      StalledForGood(Step(h, es[0]).0, es[1..]);
    }
  }

  // ---------------------------------------------------------------- it happens

  const PEER: PeerId := 1
  const CHOKED := Peer(Some([true]), true, false, true, true)
  const UNCHOKED := CHOKED.(remoteChoked := false)
  const START := Init(Random, [false], 20000, 20000)

  /** One peer connects, tells what it has and unchokes us; a block is requested from it. */
  const OPENING: seq<Event> := [
    InsertPeer(PEER, FRESH_PEER), UpdatePeer(PEER, CHOKED), RemoteChoke(PEER, false), Poll([0], [PEER])]

  const FIRST := BlockMetadata(0, 0, 16384)
  const LAST := BlockMetadata(0, 16384, 3616)

  /** After the opening one block is requested and one is missing. */
  const REQUESTED := Buffer(0, 20000, 2, [FIRST], map[PEER := LAST], map[], [])

  function Connected(record: Peer): Handler {
    START.(peers := map[PEER := record])
  }

  const BUSY := Connected(UNCHOKED).(buffer := Some(REQUESTED))

  lemma TwoBlocks()
    ensures Partition(0, 20000) == [FIRST, LAST]
  {
    assert WholeBlocks(0, 1) == [FIRST];
  }

  lemma OpeningSteps()
    ensures Step(START, OPENING[0]).0 == Connected(FRESH_PEER)
    ensures Step(Connected(FRESH_PEER), OPENING[1]).0 == Connected(CHOKED)
    ensures Step(Connected(CHOKED), OPENING[2]).0 == Connected(UNCHOKED)
    ensures Step(Connected(UNCHOKED), OPENING[3]).0 == BUSY
  {
    TwoBlocks();
    hide Partition;
    var h := Connected(UNCHOKED);
    assert h.AllCanSeed(0) && !AllSet([false]);
    var b := New(0, 20000, [PEER]);
    assert h.NextRandomPiece([0], [PEER]) == Some(b);
    assert b.missing[..1] == [FIRST] && b.peers[..0] == [];
    assert b.Next().0 == REQUESTED;
  }

  lemma OpeningAdmissible()
    ensures Possible(START, OPENING[0]) && Admissible(START, OPENING[0])
    ensures Possible(Connected(FRESH_PEER), OPENING[1]) && Admissible(Connected(FRESH_PEER), OPENING[1])
    ensures Possible(Connected(CHOKED), OPENING[2]) && Admissible(Connected(CHOKED), OPENING[2])
    ensures Possible(Connected(UNCHOKED), OPENING[3]) && Admissible(Connected(UNCHOKED), OPENING[3])
  {
  }

  /** A new handler reaches, by admissible steps, a state in which a second unchoke loses a block. */
  lemma OpeningReachesIt()
    ensures AdmissibleRun(START, OPENING) && Run(START, OPENING).0 == BUSY && Inv(BUSY)
    ensures PEER in REQUESTED.pending && REQUESTED.missing != [] && !Admissible(BUSY, RemoteChoke(PEER, false))
  {
    OpeningSteps();
    OpeningAdmissible();
    hide Step, Possible;
    var hs := [START, Connected(FRESH_PEER), Connected(CHOKED), Connected(UNCHOKED), BUSY];
    RunSteps(hs, OPENING);
    InitIsFine(Random, [false], 20000, 20000);
    InvariantOverRuns(START, OPENING);
  }

  /** So from a new handler six events suffice, and nothing that comes after them makes it report a piece. */
  lemma OneUnchokeTooMany(es: seq<Event>)
    ensures var h := Run(START, OPENING + [RemoteChoke(PEER, false), Poll([], [])]).0;
            && Short(h)
            && forall i :: 0 <= i < |es| && Run(h, es).1[i].Polled? ==> Run(h, es).1[i].state.LeechBlock?
  {
    OpeningReachesIt();
    var more := [RemoteChoke(PEER, false), Poll([], [])];
    RunSplit(START, OPENING, more);
    var unchoked := Step(BUSY, more[0]).0;
    RunSteps([BUSY, unchoked, Step(unchoked, more[1]).0], more);
    SecondUnchokeLosesABlock(BUSY, PEER, [], []);
    hide Run, Short;
    StalledForGood(Run(START, OPENING + more).0, es);
  }
}
