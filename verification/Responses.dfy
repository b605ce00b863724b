/** What becomes of the blocks that peers send, and of the requests behind them (src/peer/piece.rs). */
module Responses {
  import opened Blocks
  import opened PieceBuffers
  import opened PieceHandlers
  import opened Downloads
  import opened Selections

  /** The block has been asked of the peer and has not come yet. */
  predicate Outstanding(h: Handler, p: PeerId, m: BlockMetadata) {
    h.buffer.Some? && p in h.buffer.value.pending && h.buffer.value.pending[p] == m
  }

  predicate NothingOutstanding(h: Handler, p: PeerId) {
    h.buffer.Some? ==> p !in h.buffer.value.pending
  }

  /** The handler after a response. A block that was asked of the peer is filed with its data; for another one the block
      that was asked for is missing again; either way the peer is idle. Anything else changes nothing. */
  ghost predicate ResponseRight(h: Handler, p: PeerId, block: Block, h': Handler, r: AddResult) {
    && (r.Accepted? <==> Outstanding(h, p, block.metadata))
    && (r.NotRequested? <==> NothingOutstanding(h, p))
    && (r.NotRequested? ==> h' == h)
    && (!r.NotRequested? ==>
          && h.buffer.Some? && h'.buffer.Some? && h'.peers == h.peers && h'.bitfield == h.bitfield
          && var b, b' := h.buffer.value, h'.buffer.value;
             && NothingOutstanding(h', p) && p in b'.peers
             && (forall q :: q != p ==> (q in b'.pending <==> q in b.pending)
                                        && (q in b.pending ==> b'.pending[q] == b.pending[q]))
             && (r.Accepted? ==> r.metadata == block.metadata && b'.missing == b.missing
                                 && b'.blocks == b.blocks[block.metadata.blockOffset := block]
                                 && block.metadata.blockOffset !in b.blocks)
             && (r.InvalidBlock? ==> Outstanding(h, p, r.expected) && b'.blocks == b.blocks
                                     && multiset(b'.missing) == multiset(b.missing) + multiset{r.expected}))
  }

  lemma ResponseExact(h: Handler, p: PeerId, block: Block)
    requires Inv(h)
    ensures var (h', r) := h.AddBlock(p, block); ResponseRight(h, p, block, h', r)
  {
    if h.buffer.Some? && p in h.buffer.value.pending {
      FiledOnce(h, p);
      hide Inv;
      if block.metadata == h.buffer.value.pending[p] {
        RightResponse(h, p, block);
      } else {
        WrongResponse(h, p, block);
      }
    } else {
      hide Inv;
    }
  }

  lemma RightResponse(h: Handler, p: PeerId, block: Block)
    requires Outstanding(h, p, block.metadata) && block.metadata.blockOffset !in h.buffer.value.blocks
    ensures var (h', r) := h.AddBlock(p, block); ResponseRight(h, p, block, h', r)
  {
  }

  lemma WrongResponse(h: Handler, p: PeerId, block: Block)
    requires !NothingOutstanding(h, p) && !Outstanding(h, p, block.metadata)
    ensures var (h', r) := h.AddBlock(p, block); ResponseRight(h, p, block, h', r)
  {
    assert multiset(h.buffer.value.missing + [h.buffer.value.pending[p]])
        == multiset(h.buffer.value.missing) + multiset{h.buffer.value.pending[p]};
  }

  lemma FiledOnce(h: Handler, p: PeerId)
    requires Inv(h) && h.buffer.Some? && p in h.buffer.value.pending
    ensures h.buffer.value.pending[p].blockOffset !in h.buffer.value.blocks
  {
    hide Conserved, Disciplined, Unchoked, Partition;
    PendingNotReceived(h.buffer.value, p);
  }

  /** Over every admissible run: a block is accepted if and only if it has been asked of that very peer and has not come
      yet, and what happens to it is right. */
  lemma ResponsesOverRuns(h: Handler, es: seq<Event>, i: nat)
    requires Inv(h) && AdmissibleRun(h, es) && i < |es| && es[i].BlockResponse?
    ensures Run(h, es).1[i].Added?
    ensures ResponseRight(Run(h, es[..i]).0, es[i].peer, es[i].block, Run(h, es[..i + 1]).0, Run(h, es).1[i].result)
  {
    hide Run, AdmissibleRun, Inv, Handler.AddBlock, ResponseRight;
    NextState(h, es, i);
    InvariantOverRuns(h, es[..i]);
    ResponseExact(Run(h, es[..i]).0, es[i].peer, es[i].block);
  }

  // ---------------------------------------------------------------- a request stays until it is answered

  /** The event can end the request outstanding with the peer. */
  predicate Ends(e: Event, p: PeerId) {
    (e.BlockResponse? || e.DropPeer? || (e.RemoteChoke? && e.choked)) && e.peer == p
  }

  lemma PollKeepsOutstanding(h: Handler, order: seq<nat>, ids: seq<PeerId>, p: PeerId, m: BlockMetadata)
    requires Inv(h) && Outstanding(h, p, m)
    ensures Outstanding(h.Poll(order, ids).0, p, m)
  {
    var b := h.buffer.value;
    FullMeansReceived(b);
    assert b.pending != map[];
    hide Conserved, Unchoked, Buffer.Finalize, Handler.NextPieceBuffer;
    assert !b.IsFull();
    if b.peers != [] {
      assert b.peers[|b.peers| - 1] in b.peers;
    }
  }

  lemma StepKeepsOutstanding(h: Handler, e: Event, p: PeerId, m: BlockMetadata)
    requires Inv(h) && Outstanding(h, p, m) && !Ends(e, p)
    ensures Outstanding(Step(h, e).0, p, m)
  {
    match e
    case Poll(order, ids) =>
      PollKeepsOutstanding(h, order, ids, p, m);
      hide Handler.Poll;
    case BlockResponse(q, block) =>
      hide Inv;
    case _ =>
      hide Inv;
  }

  lemma {:induction false} StaysOutstanding(h: Handler, es: seq<Event>, p: PeerId, m: BlockMetadata)
    requires Inv(h) && AdmissibleRun(h, es) && Outstanding(h, p, m) && forall e :: e in es ==> !Ends(e, p)
    ensures Outstanding(Run(h, es).0, p, m)
    decreases |es|
  {
    hide Inv, Step, Possible, Admissible, Outstanding, Ends;
    if es != [] {
      StepExact(h, es[0]);
      StepKeepsOutstanding(h, es[0], p, m);
      StaysOutstanding(Step(h, es[0]).0, es[1..], p, m);
    }
  }

  /** In every admissible run: a block that was asked of a peer is accepted when the peer sends it, unless the peer has
      sent something else, choked us or gone in between. */
  lemma RequestedIsAccepted(h: Handler, es: seq<Event>, i: nat, j: nat)
    requires Inv(h) && AdmissibleRun(h, es) && i < j < |es|
    requires var out := Run(h, es).1[i]; out.Polled? && out.state.LeechBlock? && out.state.next.Some?
    requires var n := Run(h, es).1[i].state.next.value;
             && es[j].BlockResponse? && es[j].peer == n.peer && es[j].block.metadata == n.block
             && forall l :: i < l < j ==> !Ends(es[l], n.peer)
    ensures Run(h, es).1[j] == Added(Accepted(Run(h, es).1[i].state.next.value.block))
  {
    hide Run, AdmissibleRun, Inv, Ends, Step, ResponseRight;
    var n := Run(h, es).1[i].state.next.value;
    RequestEligibility(h, es, i);
    var mid := Run(h, es[..i + 1]).0;
    assert Outstanding(mid, n.peer, n.block);
    BetweenRuns(h, es, i + 1, j);
    InvariantOverRuns(h, es[..i + 1]);
    forall e | e in es[i + 1..j]
      ensures !Ends(e, n.peer)
    {
      var l :| 0 <= l < |es[i + 1..j]| && es[i + 1..j][l] == e;
      assert e == es[i + 1 + l];
    }
    StaysOutstanding(mid, es[i + 1..j], n.peer, n.block);
    ResponsesOverRuns(h, es, j);
    AcceptedIs(Run(h, es[..j]).0, n.peer, es[j].block, Run(h, es[..j + 1]).0, Run(h, es).1[j].result);
  }

  lemma AcceptedIs(h: Handler, p: PeerId, block: Block, h': Handler, r: AddResult)
    requires ResponseRight(h, p, block, h', r) && Outstanding(h, p, block.metadata)
    ensures r == Accepted(block.metadata)
  {
  }

  lemma BetweenRuns(h: Handler, es: seq<Event>, a: nat, b: nat)
    requires AdmissibleRun(h, es) && a <= b < |es|
    ensures AdmissibleRun(h, es[..a]) && AdmissibleRun(Run(h, es[..a]).0, es[a..b])
    ensures Run(h, es[..b]).0 == Run(Run(h, es[..a]).0, es[a..b]).0
  {
    hide Run, AdmissibleRun;
    RunAt(h, es, b);
    assert es[..b] == es[..a] + es[a..b];
    RunSplit(h, es[..a], es[a..b]);
  }
}
