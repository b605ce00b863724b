/** Whom the scheduler asks for what, told from the records of the peers (src/peer/piece.rs, src/peer/mod.rs). */
module Selections {
  import opened Collections
  import opened Blocks
  import opened PieceBuffers
  import opened PieceHandlers
  import opened Downloads

  /** The peer has sent a bit field in which the bit of the piece is set, we are interested in the peer, and it has us
      unchoked. */
  predicate Offers(peer: Peer, i: nat) {
    && peer.bitfield.Some? && i < |peer.bitfield.value| && peer.bitfield.value[i]
    && peer.clientInterested && !peer.remoteChoked
  }

  ghost predicate AllOffer(h: Handler, i: nat) {
    forall p :: p in h.peers ==> Offers(h.peers[p], i)
  }

  predicate IsMissing(h: Handler, i: nat) {
    i < |h.bitfield| && !h.bitfield[i]
  }

  // ---------------------------------------------------------------- which piece

  /** Position `k` holds the first piece of the shuffle that every tracked peer offers. */
  ghost predicate FirstAt(h: Handler, order: seq<nat>, k: nat) {
    k < |order| && AllOffer(h, order[k]) && forall j :: 0 <= j < k ==> !AllOffer(h, order[j])
  }

  lemma OfferIsAsked(h: Handler, i: nat)
    ensures h.AllCanSeed(i) <==> AllOffer(h, i)
  {
  }

  lemma {:induction false} RandomExact(h: Handler, order: seq<nat>, ids: seq<PeerId>)
    ensures var r := h.NextRandomPiece(order, ids);
            && (r.None? <==> forall k :: 0 <= k < |order| ==> !AllOffer(h, order[k]))
            && (r.Some? ==> exists k: nat :: FirstAt(h, order, k)
                                             && r.value == New(order[k], h.LengthOf(order[k]), ids))
  {
    hide Handler.AllCanSeed, AllOffer, Handler.LengthOf;
    if order != [] {
      OfferIsAsked(h, order[0]);
      if AllOffer(h, order[0]) {
        assert FirstAt(h, order, 0);
      } else {
        RandomExact(h, order[1..], ids);
        var r := h.NextRandomPiece(order[1..], ids);
        assert forall k :: 0 < k < |order| ==> order[k] == order[1..][k - 1];
        if r.Some? {
          var k: nat :| FirstAt(h, order[1..], k) && r.value == New(order[1..][k], h.LengthOf(order[1..][k]), ids);
          assert order[k + 1] == order[1..][k];
          assert FirstAt(h, order, k + 1);
        }
      }
    }
  }

  /** The scheduler has no one to ask: each missing piece is not offered by some tracked peer. Rarest-first also waits
      when no peer is tracked. */
  ghost predicate NobodyToAsk(h: Handler) {
    || (forall i: nat :: IsMissing(h, i) ==> exists p :: p in h.peers && !Offers(h.peers[p], i))
    || (h.strategy.Rarest? && h.peers == map[])
  }

  lemma SomethingMissing(h: Handler, order: seq<nat>, ids: seq<PeerId>)
    requires ValidOrders(h, order, ids)
    ensures (forall k :: 0 <= k < |order| ==> !AllOffer(h, order[k])) <==>
              (forall i: nat :: IsMissing(h, i) ==> !AllOffer(h, i))
    ensures !AllSet(h.bitfield) ==> order != []
  {
    hide AllOffer;
    if !AllSet(h.bitfield) {
      var i :| 0 <= i < |h.bitfield| && !h.bitfield[i];
      assert i in order;
    }
    forall k | 0 <= k < |order|
      ensures IsMissing(h, order[k])
    {
      assert order[k] in order;
    }
    forall i: nat | IsMissing(h, i)
      ensures exists k :: 0 <= k < |order| && order[k] == i
    {
      assert i in order;
    }
  }

  /** What a new buffer is: the first piece of the shuffle that every tracked peer offers, and all these peers. */
  ghost predicate Selected(h: Handler, order: seq<nat>, b: Buffer) {
    && IsMissing(h, b.pieceIndex) && AllOffer(h, b.pieceIndex)
    && (exists k: nat :: FirstAt(h, order, k) && order[k] == b.pieceIndex)
    && (forall p :: b.Knows(p) <==> p in h.peers)
  }

  lemma NewIsSelected(h: Handler, order: seq<nat>, ids: seq<PeerId>, k: nat)
    requires ValidOrders(h, order, ids) && FirstAt(h, order, k)
    ensures var b := New(order[k], h.LengthOf(order[k]), ids); Selected(h, order, b) && Selected(h, order, b.Next().0)
  {
    hide AllOffer, Partition, NoDuplicates, Handler.LengthOf;
    var b := New(order[k], h.LengthOf(order[k]), ids);
    assert order[k] in order;
    NextKnows(b);
    hide Buffer.Next;
  }

  lemma NoneExact(h: Handler, order: seq<nat>, ids: seq<PeerId>)
    requires ValidOrders(h, order, ids) && !AllSet(h.bitfield)
    ensures h.NextPieceBuffer(order, ids).None? <==> NobodyToAsk(h)
  {
    RandomExact(h, order, ids);
    RarestDegenerates(h, order, ids);
    SomethingMissing(h, order, ids);
    Rephrased(h);
    NoPeers(h, order, ids);
    hide Handler.NextRandomPiece, Handler.NextLeastCommonPiece, AllOffer, AllSet, ValidOrders, FirstAt, Offers;
  }

  lemma SelectionExact(h: Handler, order: seq<nat>, ids: seq<PeerId>)
    requires ValidOrders(h, order, ids) && !AllSet(h.bitfield)
    ensures var r := h.NextPieceBuffer(order, ids);
            && (r.None? <==> NobodyToAsk(h))
            && (r.Some? ==> Selected(h, order, r.value) && Selected(h, order, r.value.Next().0))
  {
    hide ValidOrders, AllSet, NobodyToAsk, Selected, AllOffer, Handler.NextPieceBuffer, Handler.NextRandomPiece, New,
      Buffer.Next, Handler.LengthOf;
    NoneExact(h, order, ids);
    var r := h.NextPieceBuffer(order, ids);
    if r.Some? {
      SelectionIsFirst(h, order, ids);
      RandomExact(h, order, ids);
      var k: nat :| FirstAt(h, order, k) && r.value == New(order[k], h.LengthOf(order[k]), ids);
      NewIsSelected(h, order, ids, k);
    }
  }

  lemma Rephrased(h: Handler)
    ensures (forall i: nat :: IsMissing(h, i) ==> !AllOffer(h, i)) <==>
              (forall i: nat :: IsMissing(h, i) ==> exists p :: p in h.peers && !Offers(h.peers[p], i))
  {
    hide Offers;
  }

  lemma NoPeers(h: Handler, order: seq<nat>, ids: seq<PeerId>)
    ensures h.peers == map[] ==> h.NextLeastCommonPiece(order, ids).None?
  {
  }

  // ---------------------------------------------------------------- what a poll answers

  /** The answer of a poll while a piece is being downloaded: the piece when no block is missing or outstanding, or else
      a request if a block is missing and a peer is idle. */
  ghost predicate LeechRight(b: Buffer, b': Option<Buffer>, out: PollState) {
    && (out.PieceFinished? <==> b.missing == [] && b.pending == map[])
    && (out.LeechBlock? <==> !(b.missing == [] && b.pending == map[]))
    && (out.PieceFinished? ==> b'.None? && (out.piece.Some? <==> AllCorrect(b.blocks)))
    && (out.LeechBlock? ==>
          && b'.Some? && b'.value.pieceIndex == b.pieceIndex
          && (out.next.Some? <==> b.missing != [] && b.peers != [])
          && (out.next.Some? ==>
                && out.next.value.peer in b.peers && out.next.value.block in b.missing
                && out.next.value.peer in b'.value.pending
                && b'.value.pending[out.next.value.peer] == out.next.value.block)
          && (out.next.None? ==> b'.value == b))
  }

  /** The answer of a poll between two pieces. */
  ghost predicate IdleRight(h: Handler, order: seq<nat>, h': Handler, out: PollState) {
    && (out.Seed? <==> h.finished)
    && (out.Finished? <==> !h.finished && !exists i: nat :: IsMissing(h, i))
    && (out.WaitingPeers? <==> !h.finished && (exists i: nat :: IsMissing(h, i)) && NobodyToAsk(h))
    && (out.LeechBlock? <==> !h.finished && (exists i: nat :: IsMissing(h, i)) && !NobodyToAsk(h))
    && !out.PieceFinished?
    && (out.LeechBlock? ==> h'.buffer.Some? && Selected(h, order, h'.buffer.value))
    && (!out.LeechBlock? ==> h'.buffer.None?)
  }

  ghost predicate PollRight(h: Handler, order: seq<nat>, h': Handler, out: PollState) {
    if h.buffer.Some? then LeechRight(h.buffer.value, h'.buffer, out) else IdleRight(h, order, h', out)
  }

  lemma LeechPoll(h: Handler, order: seq<nat>, ids: seq<PeerId>)
    requires Inv(h) && h.buffer.Some?
    ensures var (h', out) := h.Poll(order, ids); LeechRight(h.buffer.value, h'.buffer, out)
  {
    var b := h.buffer.value;
    FullMeansReceived(b);
    if b.IsFull() {
      Reassembly(b);
    }
    NextRight(b);
    hide Inv, Buffer.Finalize, AllCorrect, Buffer.Next;
  }

  lemma NextRight(b: Buffer)
    ensures var (b', next) := b.Next();
            && b'.pieceIndex == b.pieceIndex
            && (next.Some? <==> b.missing != [] && b.peers != [])
            && (next.Some? ==> && next.value.peer in b.peers && next.value.block in b.missing
                               && next.value.peer in b'.pending && b'.pending[next.value.peer] == next.value.block)
            && (next.None? ==> b' == b)
  {
  }

  lemma AllSetExact(h: Handler)
    ensures AllSet(h.bitfield) <==> !exists i: nat :: IsMissing(h, i)
  {
    if !AllSet(h.bitfield) {
      var i :| 0 <= i < |h.bitfield| && !h.bitfield[i];
      assert IsMissing(h, i);
    }
  }

  lemma IdlePoll(h: Handler, order: seq<nat>, ids: seq<PeerId>)
    requires ValidOrders(h, order, ids) && h.buffer.None?
    ensures var (h', out) := h.Poll(order, ids); IdleRight(h, order, h', out)
  {
    AllSetExact(h);
    if !AllSet(h.bitfield) {
      SelectionExact(h, order, ids);
    }
    hide Handler.NextPieceBuffer, ValidOrders, AllSet, NobodyToAsk, Selected, Buffer.Next, IsMissing;
  }

  /** Over every admissible run, every poll answers what it should: a piece, a request, `WaitingPeers` exactly when
      nobody can be asked, `Finished` exactly when nothing is missing any more, `Seed` after that. */
  lemma PollsOverRuns(h: Handler, es: seq<Event>, i: nat)
    requires Inv(h) && AdmissibleRun(h, es) && i < |es| && es[i].Poll?
    ensures Run(h, es).1[i].Polled?
    ensures PollRight(Run(h, es[..i]).0, es[i].order, Run(h, es[..i + 1]).0, Run(h, es).1[i].state)
  {
    hide Run, AdmissibleRun, Inv, ValidOrders, Handler.Poll, LeechRight, IdleRight;
    NextState(h, es, i);
    InvariantOverRuns(h, es[..i]);
    var mid := Run(h, es[..i]).0;
    if mid.buffer.Some? {
      LeechPoll(mid, es[i].order, es[i].ids);
    } else {
      IdlePoll(mid, es[i].order, es[i].ids);
    }
  }

  lemma NextState(h: Handler, es: seq<Event>, i: nat)
    requires AdmissibleRun(h, es) && i < |es|
    ensures AdmissibleRun(h, es[..i])
    ensures var mid := Run(h, es[..i]).0;
            && (Run(h, es[..i + 1]).0, Run(h, es).1[i]) == Step(mid, es[i])
            && Possible(mid, es[i]) && Admissible(mid, es[i])
  {
    hide Run, AdmissibleRun, Step, Possible, Admissible;
    RunAt(h, es, i);
    assert es[..i + 1] == es[..i] + [es[i]];
    RunSplit(h, es[..i], [es[i]]);
    OneStep(Run(h, es[..i]).0, es[i]);
  }

  // ---------------------------------------------------------------- who is tracked and considered

  /** The records after an event. */
  ghost predicate TracksRight(h: Handler, e: Event, h': Handler) {
    h'.peers == match e
                case InsertPeer(p, record) => h.peers[p := record]
                case DropPeer(p) => h.peers - {p}
                case RemoteChoke(p, choked) =>
                  if p in h.peers then h.peers[p := h.peers[p].(remoteChoked := choked)] else h.peers
                case UpdatePeer(p, record) => if p in h.peers then h.peers[p := record] else h.peers
                case _ => h.peers
  }

  /** Whether the buffer considers `q` after an event: a peer joins when it unchokes us, or is new, and offers the
      piece; it leaves when it chokes us or goes. */
  ghost predicate ConsidersRight(h: Handler, e: Event, h': Handler, q: PeerId)
    requires h.buffer.Some? && h'.buffer.Some?
  {
    var i := h.buffer.value.pieceIndex;
    var known := h.buffer.value.Knows(q);
    h'.buffer.value.Knows(q) <==>
      match e
      case RemoteChoke(p, choked) =>
        if q != p then known
        else if choked then false
        else known || (p in h.peers && Offers(h.peers[p].(remoteChoked := false), i))
      case InsertPeer(p, record) => known || (q == p && p !in h.peers && Offers(record, i))
      case DropPeer(p) => known && q != p
      case _ => known
  }

  ghost predicate PeersRight(h: Handler, e: Event, h': Handler) {
    && TracksRight(h, e, h')
    && (h.buffer.Some? && h'.buffer.Some? ==>
          h'.buffer.value.pieceIndex == h.buffer.value.pieceIndex && forall q :: ConsidersRight(h, e, h', q))
    && (!e.Poll? ==> (h'.buffer.Some? <==> h.buffer.Some?))
  }

  lemma PollPeers(h: Handler, order: seq<nat>, ids: seq<PeerId>)
    requires h.buffer.Some?
    ensures var h' := h.Poll(order, ids).0;
            && h'.peers == h.peers
            && (h'.buffer.Some? ==> h'.buffer.value.pieceIndex == h.buffer.value.pieceIndex
                                    && forall q :: h'.buffer.value.Knows(q) <==> h.buffer.value.Knows(q))
  {
    NextKnows(h.buffer.value);
    hide Buffer.Next, Buffer.Finalize, Buffer.IsFull;
  }

  lemma ChokePeers(h: Handler, p: PeerId, choked: bool)
    requires Inv(h)
    ensures PeersRight(h, RemoteChoke(p, choked), h.SetRemoteChoke(p, choked))
  {
    hide Conserved, Disciplined;
    if h.buffer.Some? {
      RemovePeerConserves(h.buffer.value, p);
      KnowsPushed(h.buffer.value, p);
      RemovedPiece(h.buffer.value, p);
      hide Buffer.RemovePeer, Buffer.Knows;
    }
  }

  lemma RemovedPiece(b: Buffer, p: PeerId)
    ensures b.RemovePeer(p).pieceIndex == b.pieceIndex
  {
  }

  lemma InsertPeers(h: Handler, p: PeerId, record: Peer)
    requires Inv(h)
    ensures PeersRight(h, InsertPeer(p, record), h.InsertPeer(p, record))
  {
    if h.buffer.Some? {
      KnowsPushed(h.buffer.value, p);
      hide Buffer.Knows;
    }
  }

  lemma DropPeers(h: Handler, p: PeerId)
    requires Inv(h)
    ensures PeersRight(h, DropPeer(p), h.RemovePeer(p))
  {
    hide Conserved, Disciplined;
    if h.buffer.Some? {
      RemovePeerConserves(h.buffer.value, p);
      RemovedPiece(h.buffer.value, p);
      hide Buffer.RemovePeer;
    }
  }

  lemma ResponsePeers(h: Handler, p: PeerId, block: Block)
    requires Inv(h)
    ensures PeersRight(h, BlockResponse(p, block), h.AddBlock(p, block).0)
  {
    hide Conserved, Disciplined;
    if h.buffer.Some? {
      AddBlockConserves(h.buffer.value, p, block);
      AddedPiece(h.buffer.value, p, block);
      hide Buffer.AddBlock, Buffer.Knows;
    }
  }

  lemma AddedPiece(b: Buffer, p: PeerId, block: Block)
    ensures b.AddBlock(p, block).0.pieceIndex == b.pieceIndex
  {
  }

  lemma PolledPeers(h: Handler, order: seq<nat>, ids: seq<PeerId>)
    ensures PeersRight(h, Poll(order, ids), h.Poll(order, ids).0)
  {
    if h.buffer.Some? {
      PollPeers(h, order, ids);
      hide Handler.Poll, Buffer.Knows;
    } else {
      hide Handler.NextPieceBuffer, Buffer.Next, AllSet;
    }
  }

  lemma StepPeers(h: Handler, e: Event)
    requires Inv(h)
    ensures PeersRight(h, e, Step(h, e).0)
  {
    hide PeersRight, Inv;
    match e
    case Poll(order, ids) => PolledPeers(h, order, ids);
    case RemoteChoke(p, choked) => ChokePeers(h, p, choked);
    case InsertPeer(p, record) => InsertPeers(h, p, record);
    case DropPeer(p) => DropPeers(h, p);
    case BlockResponse(p, block) => ResponsePeers(h, p, block);
    case Acknowledge(_) => OtherPeers(h, e);
    case UpdatePeer(_, _) => OtherPeers(h, e);
  }

  lemma OtherPeers(h: Handler, e: Event)
    requires e.Acknowledge? || e.UpdatePeer?
    ensures PeersRight(h, e, Step(h, e).0)
  {
    hide Buffer.Knows, Handler.Poll, Buffer.AddBlock, Buffer.RemovePeer;
  }

  /** Over every admissible run: exactly the peers that connected and have not gone are tracked, and the buffer
      considers exactly those it should. */
  lemma PeersOverRuns(h: Handler, es: seq<Event>, i: nat)
    requires Inv(h) && AdmissibleRun(h, es) && i < |es|
    ensures PeersRight(Run(h, es[..i]).0, es[i], Run(h, es[..i + 1]).0)
  {
    hide Run, AdmissibleRun, Inv, Step, PeersRight;
    NextState(h, es, i);
    InvariantOverRuns(h, es[..i]);
    StepPeers(Run(h, es[..i]).0, es[i]);
  }

  // ---------------------------------------------------------------- requests go to peers that offer the piece

  /** Every peer that the buffer considers offers the piece. */
  ghost predicate Offered(h: Handler) {
    h.buffer.Some? ==>
      forall p :: h.buffer.value.Knows(p) ==> p in h.peers && Offers(h.peers[p], h.buffer.value.pieceIndex)
  }

  /** The event does not replace the record of a peer that is considered by one that no longer offers the piece. */
  predicate Steady(h: Handler, e: Event) {
    h.buffer.Some? && (e.UpdatePeer? || e.InsertPeer?) && h.buffer.value.Knows(e.peer) ==>
      Offers(e.record, h.buffer.value.pieceIndex)
  }

  lemma StillOffers(h: Handler, e: Event, h': Handler, q: PeerId)
    requires h.buffer.Some? && h'.buffer.Some? && Offered(h) && TracksRight(h, e, h') && ConsidersRight(h, e, h', q)
    requires h'.buffer.value.Knows(q) && Steady(h, e)
    ensures q in h'.peers && Offers(h'.peers[q], h.buffer.value.pieceIndex)
  {
    hide Buffer.Knows;
  }

  lemma NoLongerOffers(h: Handler, e: Event, h': Handler)
    requires h.buffer.Some? && h'.buffer.Some? && Offered(h) && TracksRight(h, e, h') && !Steady(h, e)
    requires ConsidersRight(h, e, h', e.peer) && h'.buffer.value.pieceIndex == h.buffer.value.pieceIndex
    ensures !Offered(h')
  {
    hide Buffer.Knows;
    assert h'.buffer.value.Knows(e.peer);
    assert h'.peers[e.peer] == e.record;
  }

  /** A step keeps this if and only if it is steady. */
  lemma StepOffers(h: Handler, e: Event)
    requires Inv(h) && Offered(h) && Possible(h, e)
    ensures Offered(Step(h, e).0) <==> Steady(h, e)
  {
    StepPeers(h, e);
    var h' := Step(h, e).0;
    if e.Poll? && h.buffer.None? {
      hide Inv, ValidOrders, Handler.Poll, NobodyToAsk, Offers;
      IdlePoll(h, e.order, e.ids);
    } else if h.buffer.Some? && h'.buffer.Some? {
      hide Inv, Step, Offers, ConsidersRight, Steady, TracksRight, Buffer.Knows, Possible;
      if Steady(h, e) {
        forall q | h'.buffer.value.Knows(q)
          ensures q in h'.peers && Offers(h'.peers[q], h.buffer.value.pieceIndex)
        {
          StillOffers(h, e, h', q);
        }
      } else {
        NoLongerOffers(h, e, h');
      }
    } else {
      hide Inv, Handler.Poll, Buffer.RemovePeer, Buffer.AddBlock, Buffer.Knows, Offers, Possible;
    }
  }

  ghost predicate SteadyRun(h: Handler, es: seq<Event>)
    decreases |es|
  {
    es == [] || (Steady(h, es[0]) && SteadyRun(Step(h, es[0]).0, es[1..]))
  }

  lemma {:induction false} OfferedOverRuns(h: Handler, es: seq<Event>, i: nat)
    requires Inv(h) && Offered(h) && AdmissibleRun(h, es) && SteadyRun(h, es) && i <= |es|
    ensures Offered(Run(h, es[..i]).0)
    decreases |es|
  {
    hide Step, Inv, Possible, Admissible, Steady, Offered;
    if i > 0 {
      StepExact(h, es[0]);
      StepOffers(h, es[0]);
      OfferedOverRuns(Step(h, es[0]).0, es[1..], i - 1);
      assert es[..i][1..] == es[1..][..i - 1];
    }
  }

  /** In every steady, admissible run a block is only asked of a tracked peer that offers its piece at that moment. */
  lemma RequestsGoToOwners(h: Handler, es: seq<Event>, i: nat)
    requires Inv(h) && Offered(h) && AdmissibleRun(h, es) && SteadyRun(h, es) && i < |es|
    requires var out := Run(h, es).1[i]; out.Polled? && out.state.LeechBlock? && out.state.next.Some?
    ensures var n, mid := Run(h, es).1[i].state.next.value, Run(h, es[..i]).0;
            n.peer in mid.peers && Offers(mid.peers[n.peer], n.block.pieceIndex)
  {
    hide Run, AdmissibleRun, SteadyRun, Inv, Offers, AllOffer;
    OfferedOverRuns(h, es, i);
    NextState(h, es, i);
    var mid, e := Run(h, es[..i]).0, es[i];
    assert e.Poll?;
    PollsOverRuns(h, es, i);
    RequestEligibility(h, es, i);
    var n := Run(h, es).1[i].state.next.value;
    var b := Run(h, es[..i + 1]).0.buffer.value;
    PartitionIndex(b.pieceIndex, Run(h, es[..i + 1]).0.LengthOf(b.pieceIndex), n.block);
    if mid.buffer.Some? {
      assert mid.buffer.value.Knows(n.peer);
    } else {
      assert b.Knows(n.peer) && Selected(mid, e.order, b);
      assert AllOffer(mid, b.pieceIndex);
      OneOfAll(mid, b.pieceIndex, n.peer);
    }
  }

  lemma OneOfAll(h: Handler, i: nat, p: PeerId)
    requires AllOffer(h, i) && p in h.peers
    ensures Offers(h.peers[p], i)
  {
  }

  lemma PartitionIndex(i: nat, length: nat, m: BlockMetadata)
    requires m in Partition(i, length)
    ensures m.pieceIndex == i
  {
    PartitionEndToEnd(i, length);
    hide Partition;
  }
}
