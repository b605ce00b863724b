/** Runs of the download scheduler: what every sequence of polls, chokes, disconnects and block
    responses keeps (src/peer/piece.rs). */
module Downloads {
  import opened Collections
  import opened Messages
  import opened Blocks
  import opened PieceBuffers
  import opened PieceHandlers
  import Bags

  datatype Event =
    | Poll(order: seq<nat>, ids: seq<PeerId>)
    | RemoteChoke(peer: PeerId, choked: bool)
    | InsertPeer(peer: PeerId, record: Peer)
    | DropPeer(peer: PeerId)
    | BlockResponse(peer: PeerId, block: Block)
    | Acknowledge(piece: nat)
    | UpdatePeer(peer: PeerId, record: Peer)

  datatype Output = Polled(state: PollState) | Added(result: AddResult) | Silent

  /** `Acknowledge` is `set_piece` after the disk has written a piece; `UpdatePeer` stands for the
      setters of the other fields of a tracked peer: interest, our choke, bit field, have. */
  function Step(h: Handler, e: Event): (Handler, Output) {
    match e
    case Poll(order, ids) => var (h', s) := h.Poll(order, ids); (h', Polled(s))
    case RemoteChoke(p, choked) => (h.SetRemoteChoke(p, choked), Silent)
    case InsertPeer(p, record) => (h.InsertPeer(p, record), Silent)
    case DropPeer(p) => (h.RemovePeer(p), Silent)
    case BlockResponse(p, block) => var (h', r) := h.AddBlock(p, block); (h', Added(r))
    case Acknowledge(i) => (h.SetPiece(i), Silent)
    case UpdatePeer(p, record) => (if p in h.peers then h.(peers := h.peers[p := record]) else h, Silent)
  }

  /** What the environment can do at all. */
  ghost predicate Possible(h: Handler, e: Event) {
    match e
    case Poll(order, ids) => ValidOrders(h, order, ids)
    case UpdatePeer(p, record) => p in h.peers ==> record.remoteChoked == h.peers[p].remoteChoked
    case _ => true
  }

  /** What the scheduler needs of the environment: no unchoke that would list a peer twice, no new
      handshake that chokes a peer behind the buffer's back, and no acknowledgement of the piece that is
      still being downloaded. */
  predicate Admissible(h: Handler, e: Event) {
    h.buffer.Some? ==>
      var b := h.buffer.value;
      match e
      case RemoteChoke(p, choked) =>
        !choked && b.Knows(p) && p in h.peers ==>
          !h.peers[p].(remoteChoked := false).RemoteCanSeedPiece(b.pieceIndex)
      case InsertPeer(p, record) => b.Knows(p) ==> !record.remoteChoked
      case Acknowledge(i) => i != b.pieceIndex
      case _ => true
  }

  /** The invariant of the scheduler. */
  ghost predicate Inv(h: Handler) {
    && (h.finished ==> h.buffer.None? && AllSet(h.bitfield))
    && (h.buffer.Some? ==> BufferInv(h, h.buffer.value))
  }

  ghost predicate BufferInv(h: Handler, b: Buffer) {
    && b.pieceIndex < |h.bitfield| && !h.bitfield[b.pieceIndex]
    && b.pieceLength == h.LengthOf(b.pieceIndex)
    && Conserved(b) && Disciplined(b)
    && Unchoked(h.peers, b)
  }

  /** Every peer the buffer considers is tracked and has us unchoked. */
  ghost predicate Unchoked(peers: map<PeerId, Peer>, b: Buffer) {
    forall p :: b.Knows(p) ==> p in peers && !peers[p].remoteChoked
  }

  // ---------------------------------------------------------------- selection

  lemma {:induction false} RandomSelects(h: Handler, order: seq<nat>, ids: seq<PeerId>)
    ensures var r := h.NextRandomPiece(order, ids);
            && (r.None? <==> forall i :: i in order ==> !h.AllCanSeed(i))
            && (r.Some? ==> r.value.pieceIndex in order && h.AllCanSeed(r.value.pieceIndex)
                            && r.value == New(r.value.pieceIndex, h.LengthOf(r.value.pieceIndex), ids))
  {
    if order != [] && !h.AllCanSeed(order[0]) {
      RandomSelects(h, order[1..], ids);
      assert forall i :: i in order <==> i == order[0] || i in order[1..];
    }
  }

  lemma {:induction false} RarestKeepsBest(h: Handler, order: seq<nat>, ids: seq<PeerId>, best: nat)
    requires |ids| != 1
    ensures h.RarestFrom(order, ids, Some(best)) == Some(New(best, h.LengthOf(best), ids))
  {
    if order != [] {
      RarestKeepsBest(h, order[1..], ids, best);
    }
  }

  lemma {:induction false} RarestIsFirst(h: Handler, order: seq<nat>, ids: seq<PeerId>)
    ensures h.RarestFrom(order, ids, None) == h.NextRandomPiece(order, ids)
  {
    if order != [] {
      if h.AllCanSeed(order[0]) {
        if |ids| != 1 {
          RarestKeepsBest(h, order[1..], ids, order[0]);
        }
      } else {
        RarestIsFirst(h, order[1..], ids);
      }
    }
  }

  /** Rarest-first degenerates: since a piece counts only when every tracked peer can seed it, all
      candidates are equally common, and the strategy takes the first one, as the random strategy does. It
      differs only when no peer is tracked while pieces are missing. */
  lemma RarestDegenerates(h: Handler, order: seq<nat>, ids: seq<PeerId>)
    ensures h.NextLeastCommonPiece(order, ids) == h.NextRandomPiece(order, ids) <==> h.peers != map[] || order == []
  {
    RarestIsFirst(h, order, ids);
    if !exists p :: p in h.peers && h.peers[p].RemoteCanSeed() {
      RandomSelects(h, order, ids);
      if h.peers == map[] {
        assert order != [] ==> h.AllCanSeed(order[0]);
      } else {
        var p :| p in h.peers;
        assert forall i :: i in order ==> !h.AllCanSeed(i);
      }
    }
  }

  lemma SelectionIsFirst(h: Handler, order: seq<nat>, ids: seq<PeerId>)
    requires h.NextPieceBuffer(order, ids).Some?
    ensures h.NextPieceBuffer(order, ids) == h.NextRandomPiece(order, ids)
  {
    RarestIsFirst(h, order, ids);
  }

  // ---------------------------------------------------------------- one step

  lemma NextKeeps(h: Handler, b: Buffer)
    requires BufferInv(h, b)
    ensures BufferInv(h, b.Next().0)
  {
    hide Conserved, Disciplined;
    NextConserves(b);
    NextKnows(b);
  }

  lemma SelectedIsRight(h: Handler, order: seq<nat>, ids: seq<PeerId>)
    requires ValidOrders(h, order, ids) && h.NextPieceBuffer(order, ids).Some?
    ensures BufferInv(h, h.NextPieceBuffer(order, ids).value)
  {
    hide Conserved, Disciplined, NoDuplicates, Handler.NextRandomPiece, Handler.NextPieceBuffer, Partition;
    var b := h.NextPieceBuffer(order, ids).value;
    SelectionIsFirst(h, order, ids);
    RandomSelects(h, order, ids);
    NewConserves(b.pieceIndex, b.pieceLength, ids);
    NewDisciplined(b.pieceIndex, b.pieceLength, ids);
    assert b.pieceIndex in order;
    forall p | b.Knows(p)
      ensures p in h.peers && !h.peers[p].remoteChoked
    {
      assert p in ids && h.peers[p].RemoteCanSeedPiece(b.pieceIndex);
    }
  }

  lemma PollKeeps(h: Handler, order: seq<nat>, ids: seq<PeerId>)
    requires Inv(h) && ValidOrders(h, order, ids)
    ensures Inv(h.Poll(order, ids).0)
  {
    hide Conserved, Disciplined, Unchoked, ValidOrders;
    if h.buffer.Some? {
      NextKeeps(h, h.buffer.value);
    } else if !h.finished && !AllSet(h.bitfield) && h.NextPieceBuffer(order, ids).Some? {
      SelectedIsRight(h, order, ids);
      NextKeeps(h, h.NextPieceBuffer(order, ids).value);
    }
  }

  lemma NewDisciplined(pieceIndex: nat, pieceLength: nat, ids: seq<PeerId>)
    requires NoDuplicates(ids)
    ensures Disciplined(New(pieceIndex, pieceLength, ids))
  {
  }

  /** Handing out a block makes no peer known or forgotten. */
  lemma NextKnows(b: Buffer)
    ensures forall p :: b.Next().0.Knows(p) <==> b.Knows(p)
    ensures b.Next().0.pieceIndex == b.pieceIndex && b.Next().0.pieceLength == b.pieceLength
  {
    if b.peers != [] {
      assert b.peers == b.peers[..|b.peers| - 1] + [b.peers[|b.peers| - 1]];
    }
  }

  /** Listing one more idle peer is right if and only if the buffer does not consider it yet. */
  lemma PushPeer(b: Buffer, p: PeerId)
    requires Conserved(b) && Disciplined(b)
    ensures Conserved(b.(peers := b.peers + [p]))
    ensures Disciplined(b.(peers := b.peers + [p])) <==> !b.Knows(p)
  {
    var s := b.peers + [p];
    if p in b.peers {
      var i :| 0 <= i < |b.peers| && b.peers[i] == p;
      assert s[i] == s[|b.peers|];
    } else if p in b.pending {
      assert p in s;
    }
  }

  lemma ChokeKeeps(h: Handler, p: PeerId)
    requires Inv(h)
    ensures Inv(h.SetRemoteChoke(p, true))
  {
    hide Conserved, Disciplined;
    if h.buffer.Some? && p in h.peers {
      RemovePeerConserves(h.buffer.value, p);
    }
  }

  lemma UnchokeKeeps(h: Handler, p: PeerId)
    requires Inv(h)
    ensures Inv(h.SetRemoteChoke(p, false)) <==> Admissible(h, RemoteChoke(p, false))
  {
    hide Conserved, Disciplined;
    if h.buffer.Some? && p in h.peers {
      PushPeer(h.buffer.value, p);
      KnowsPushed(h.buffer.value, p);
    }
  }

  lemma KnowsPushed(b: Buffer, p: PeerId)
    ensures forall q :: b.(peers := b.peers + [p]).Knows(q) <==> q == p || b.Knows(q)
  {
  }

  lemma InsertKeeps(h: Handler, p: PeerId, record: Peer)
    requires Inv(h)
    ensures Inv(h.InsertPeer(p, record)) <==> Admissible(h, InsertPeer(p, record))
  {
    hide Conserved, Disciplined;
    if h.buffer.Some? {
      PushPeer(h.buffer.value, p);
      KnowsPushed(h.buffer.value, p);
    }
  }

  lemma DropKeeps(h: Handler, p: PeerId)
    requires Inv(h)
    ensures Inv(h.RemovePeer(p))
  {
    hide Conserved, Disciplined;
    if h.buffer.Some? && p in h.peers {
      RemovePeerConserves(h.buffer.value, p);
    }
  }

  lemma BlockKeeps(h: Handler, p: PeerId, block: Block)
    requires Inv(h)
    ensures Inv(h.AddBlock(p, block).0)
  {
    if h.buffer.Some? {
      AddBlockConserves(h.buffer.value, p, block);
    }
  }

  /** One step keeps the invariant if and only if it is admissible. */
  lemma StepExact(h: Handler, e: Event)
    requires Inv(h) && Possible(h, e)
    ensures Inv(Step(h, e).0) <==> Admissible(h, e)
  {
    hide Conserved, Disciplined;
    match e
    case Poll(order, ids) => PollKeeps(h, order, ids);
    case RemoteChoke(p, choked) => if choked { ChokeKeeps(h, p); } else { UnchokeKeeps(h, p); }
    case InsertPeer(p, record) => InsertKeeps(h, p, record);
    case DropPeer(p) => DropKeeps(h, p);
    case BlockResponse(p, block) => BlockKeeps(h, p, block);
    case Acknowledge(i) =>
    case UpdatePeer(p, record) =>
  }

  // ---------------------------------------------------------------- runs

  /** The last state and the outputs of a sequence of events. */
  function Run(h: Handler, es: seq<Event>): (r: (Handler, seq<Output>))
    ensures |r.1| == |es|
    decreases |es|
  {
    if es == [] then (h, [])
    else
      var (h', out) := Step(h, es[0]);
      var (last, outs) := Run(h', es[1..]);
      (last, [out] + outs)
  }

  ghost predicate AdmissibleRun(h: Handler, es: seq<Event>)
    decreases |es|
  {
    es == [] || (Possible(h, es[0]) && Admissible(h, es[0]) && AdmissibleRun(Step(h, es[0]).0, es[1..]))
  }

  lemma {:induction false} RunSplit(h: Handler, a: seq<Event>, b: seq<Event>)
    ensures var mid := Run(h, a);
            var end := Run(mid.0, b);
            Run(h, a + b) == (end.0, mid.1 + end.1)
    ensures AdmissibleRun(h, a + b) <==> AdmissibleRun(h, a) && AdmissibleRun(Run(h, a).0, b)
    decreases |a|
  {
    hide Step, Possible, Admissible;
    if a == [] {
      assert a + b == b && [] + Run(h, b).1 == Run(h, b).1;
    } else {
      assert (a + b)[1..] == a[1..] + b;
      var (h', out) := Step(h, a[0]);
      RunSplit(h', a[1..], b);
      var mid := Run(h', a[1..]);
      assert [out] + (mid.1 + Run(mid.0, b).1) == [out] + mid.1 + Run(mid.0, b).1;
    }
  }

  /** A run, given all its states. */
  lemma {:induction false} RunSteps(hs: seq<Handler>, es: seq<Event>)
    requires |hs| == |es| + 1 && forall i :: 0 <= i < |es| ==> Step(hs[i], es[i]).0 == hs[i + 1]
    ensures Run(hs[0], es).0 == hs[|es|]
    ensures forall i :: 0 <= i < |es| ==> Run(hs[0], es).1[i] == Step(hs[i], es[i]).1
    ensures (forall i :: 0 <= i < |es| ==> Possible(hs[i], es[i]) && Admissible(hs[i], es[i])) ==>
              AdmissibleRun(hs[0], es)
    decreases |es|
  {
    hide Step, Possible, Admissible;
    if es != [] {
      var hs1, es1 := hs[1..], es[1..];
      assert forall i :: 0 <= i < |es1| ==> hs1[i] == hs[i + 1] && es1[i] == es[i + 1];
      RunSteps(hs1, es1);
      assert hs1[0] == Step(hs[0], es[0]).0;
    }
  }

  /** Cut a run at event `i`. */
  lemma RunAt(h: Handler, es: seq<Event>, i: nat)
    requires i < |es| && AdmissibleRun(h, es)
    ensures AdmissibleRun(h, es[..i]) && AdmissibleRun(Run(h, es[..i]).0, es[i..])
    ensures Run(h, es).1[..i] == Run(h, es[..i]).1
    ensures Run(h, es).1[i..] == Run(Run(h, es[..i]).0, es[i..]).1
    ensures Run(h, es).1[i] == Step(Run(h, es[..i]).0, es[i]).1
    ensures Possible(Run(h, es[..i]).0, es[i]) && Admissible(Run(h, es[..i]).0, es[i])
  {
    hide Step, Possible, Admissible;
    assert es == es[..i] + es[i..];
    RunSplit(h, es[..i], es[i..]);
    assert es[i..][0] == es[i];
  }

  /** Block conservation, and with it the whole invariant, holds at the end of every admissible run. */
  lemma {:induction false} InvariantOverRuns(h: Handler, es: seq<Event>)
    requires Inv(h) && AdmissibleRun(h, es)
    ensures Inv(Run(h, es).0)
    decreases |es|
  {
    hide Step, Inv, Possible, Admissible;
    if es != [] {
      StepExact(h, es[0]);
      InvariantOverRuns(Step(h, es[0]).0, es[1..]);
    }
  }

  lemma InitIsFine(strategy: PieceSelection, bitfield: seq<bool>, pieceLength: nat, lastPieceLength: nat)
    ensures Inv(Init(strategy, bitfield, pieceLength, lastPieceLength))
  {
  }

  /** Block conservation: from a new handler, however the run goes on, the blocks missing, requested and
      received are exactly the partition of the current piece. */
  lemma BlockConservation(strategy: PieceSelection, bitfield: seq<bool>, pieceLength: nat, lastPieceLength: nat,
                          es: seq<Event>)
    requires AdmissibleRun(Init(strategy, bitfield, pieceLength, lastPieceLength), es)
    ensures var h := Run(Init(strategy, bitfield, pieceLength, lastPieceLength), es).0;
            h.buffer.Some? ==>
              var b := h.buffer.value;
              && multiset(b.missing) + Bags.Bag(b.pending) + Bags.Bag(Metas(b.blocks))
                 == multiset(Partition(b.pieceIndex, h.LengthOf(b.pieceIndex)))
              && (b.IsFull() <==> b.missing == [] && b.pending == map[])
  {
    var h := Run(Init(strategy, bitfield, pieceLength, lastPieceLength), es).0;
    InvariantOverRuns(Init(strategy, bitfield, pieceLength, lastPieceLength), es);
    if h.buffer.Some? {
      FullMeansReceived(h.buffer.value);
    }
  }

  /** A request goes to a tracked peer that has us unchoked and has nothing outstanding; it asks for a
      block of the current piece, which is now the one outstanding block of that peer. */
  ghost predicate Eligible(before: Handler, after: Handler, n: NextBlock) {
    && n.peer in before.peers && !before.peers[n.peer].remoteChoked
    && (before.buffer.Some? ==> n.peer !in before.buffer.value.pending)
    && after.buffer.Some? && n.peer in after.buffer.value.pending
    && after.buffer.value.pending[n.peer] == n.block
    && n.peer !in after.buffer.value.peers
    && n.block in Partition(after.buffer.value.pieceIndex, after.LengthOf(after.buffer.value.pieceIndex))
  }

  lemma NextIsEligible(h: Handler, b: Buffer)
    requires BufferInv(h, b) && b.Next().1.Some?
    requires h.buffer.Some? ==> h.buffer.value == b
    ensures Eligible(h, h.(buffer := Some(b.Next().0)), b.Next().1.value)
  {
    hide Conserved, Partition, NoDuplicates;
    var n := b.Next().1.value;
    NextConserves(b);
    assert n.peer in b.peers && b.Knows(n.peer);
    PendingNotReceived(b.Next().0, n.peer);
  }

  lemma PollIsEligible(h: Handler, order: seq<nat>, ids: seq<PeerId>)
    requires Inv(h) && ValidOrders(h, order, ids)
    requires h.Poll(order, ids).1.LeechBlock? && h.Poll(order, ids).1.next.Some?
    ensures Eligible(h, h.Poll(order, ids).0, h.Poll(order, ids).1.next.value)
  {
    hide BufferInv, Eligible, Buffer.Next, Handler.NextPieceBuffer, Buffer.Finalize, ValidOrders;
    if h.buffer.Some? {
      NextIsEligible(h, h.buffer.value);
    } else {
      SelectedIsRight(h, order, ids);
      NextIsEligible(h, h.NextPieceBuffer(order, ids).value);
    }
  }

  /** Request eligibility over every admissible run. */
  lemma RequestEligibility(h: Handler, es: seq<Event>, i: nat)
    requires Inv(h) && AdmissibleRun(h, es) && i < |es|
    requires var out := Run(h, es).1[i]; out.Polled? && out.state.LeechBlock? && out.state.next.Some?
    ensures Eligible(Run(h, es[..i]).0, Run(h, es[..i + 1]).0, Run(h, es).1[i].state.next.value)
  {
    hide Run, AdmissibleRun, Inv, Eligible, ValidOrders, Handler.Poll;
    RunAt(h, es, i);
    InvariantOverRuns(h, es[..i]);
    var h1 := Run(h, es[..i]).0;
    var e := es[i];
    assert es[..i + 1] == es[..i] + [e];
    RunSplit(h, es[..i], [e]);
    OneStep(h1, e);
    PollIsEligible(h1, e.order, e.ids);
  }

  // ---------------------------------------------------------------- reassembly over runs

  /** Event `k` delivered `block`, and the handler accepted it. */
  ghost predicate Delivered(h: Handler, es: seq<Event>, k: nat, block: Block) {
    k < |es| && es[k].BlockResponse? && es[k].block == block && Run(h, es).1[k] == Added(Accepted(block.metadata))
  }

  ghost predicate WasDelivered(h: Handler, es: seq<Event>, block: Block) {
    exists k :: Delivered(h, es, k, block)
  }

  lemma DeliveredLater(h: Handler, es: seq<Event>, e: Event, block: Block)
    requires WasDelivered(h, es, block)
    ensures WasDelivered(h, es + [e], block)
  {
    hide Step;
    var k :| Delivered(h, es, k, block);
    RunSplit(h, es, [e]);
    assert Delivered(h, es + [e], k, block);
  }

  /** A step files at most one block, the one it accepts. */
  lemma StepFiles(h: Handler, e: Event)
    ensures var (h', out) := Step(h, e);
            h'.buffer.Some? ==> forall o :: o in h'.buffer.value.blocks ==>
              var block := h'.buffer.value.blocks[o];
              || (h.buffer.Some? && o in h.buffer.value.blocks && h.buffer.value.blocks[o] == block)
              || (e.BlockResponse? && e.block == block && out == Added(Accepted(block.metadata)))
  {
    match e
    case Poll(order, ids) =>
      if h.buffer.None? && h.NextPieceBuffer(order, ids).Some? {
        SelectionIsFirst(h, order, ids);
        RandomSelects(h, order, ids);
      }
    case _ =>
  }

  /** Whatever the buffer holds was delivered in the run. */
  lemma {:induction false} HeldWasDelivered(h: Handler, es: seq<Event>)
    requires h.buffer.None?
    ensures var h' := Run(h, es).0;
            h'.buffer.Some? ==>
              forall o :: o in h'.buffer.value.blocks ==> WasDelivered(h, es, h'.buffer.value.blocks[o])
    decreases |es|
  {
    if es != [] {
      var n := |es| - 1;
      var init, e := es[..n], es[n];
      var before, after := Run(h, init).0, Run(h, es).0;
      HeldWasDelivered(h, init);
      assert es == init + [e];
      RunSplit(h, init, [e]);
      OneStep(before, e);
      StepFiles(before, e);
      hide Step, Run;
      if after.buffer.Some? {
        forall o | o in after.buffer.value.blocks
          ensures WasDelivered(h, es, after.buffer.value.blocks[o])
        {
          var block := after.buffer.value.blocks[o];
          if before.buffer.Some? && o in before.buffer.value.blocks && before.buffer.value.blocks[o] == block {
            DeliveredLater(h, init, e, block);
          } else {
            assert Delivered(h, es, n, block);
          }
        }
      }
    }
  }

  lemma OneStep(h: Handler, e: Event)
    ensures Run(h, [e]) == (Step(h, e).0, [Step(h, e).1])
  {
    hide Step;
    var (h', out) := Step(h, e);
    assert Run(h', [e][1..]) == (h', []);
    assert [out] + [] == [out];
  }

  /** At the place of `m`, the piece holds the bytes of a block delivered and accepted as `m`. */
  ghost predicate MadeOf(h: Handler, es: seq<Event>, piece: Block, m: BlockMetadata) {
    exists block :: WasDelivered(h, es, block) && block.metadata == m && |block.data| == m.blockLength
                    && SliceIs(piece.data, m.blockOffset, block.data)
  }

  lemma PolledPiece(h: Handler, e: Event)
    requires Inv(h) && IsPiece(Step(h, e).1)
    ensures h.buffer.Some? && h.buffer.value.IsFull() && Conserved(h.buffer.value)
    ensures h.buffer.value.Finalize() == Step(h, e).1.state.piece
    ensures h.buffer.value.pieceLength == h.LengthOf(h.buffer.value.pieceIndex)
    ensures h.buffer.value.pieceIndex < |h.bitfield|
  {
  }

  /** Reassembly over runs: a piece that is reported has exactly its length, and at the place of each of
      its blocks it holds the bytes of a block that was delivered and accepted for that place earlier in the
      run, in whatever order and from whichever peers the blocks came. */
  lemma ReassemblyOverRuns(h: Handler, es: seq<Event>, i: nat)
    requires Inv(h) && h.buffer.None? && AdmissibleRun(h, es) && i < |es|
    requires IsPiece(Run(h, es).1[i])
    ensures var piece := Run(h, es).1[i].state.piece.value;
            var length := Run(h, es[..i]).0.LengthOf(piece.metadata.pieceIndex);
            && |piece.data| == length && piece.metadata == BlockMetadata(piece.metadata.pieceIndex, 0, length)
            && piece.metadata.pieceIndex < |Run(h, es[..i]).0.bitfield|
            && forall m :: m in Partition(piece.metadata.pieceIndex, length) ==> MadeOf(h, es[..i], piece, m)
  {
    RunAt(h, es, i);
    InvariantOverRuns(h, es[..i]);
    var mid := Run(h, es[..i]).0;
    HeldWasDelivered(h, es[..i]);
    PolledPiece(mid, es[i]);
    hide Run, Step, WasDelivered, Inv, Conserved, Partition, SliceIs, AllCorrect;
    var b := mid.buffer.value;
    Reassembly(b);
    var piece := b.Finalize().value;
    forall m | m in Partition(b.pieceIndex, b.pieceLength)
      ensures MadeOf(h, es[..i], piece, m)
    {
      assert WasDelivered(h, es[..i], b.blocks[m.blockOffset]);
    }
  }

  // ---------------------------------------------------------------- completion

  function Missing(bits: seq<bool>): nat {
    if bits == [] then 0 else (if bits[0] then 0 else 1) + Missing(bits[1..])
  }

  lemma {:induction false} MissingAfterSet(bits: seq<bool>, i: nat)
    requires i < |bits|
    ensures Missing(bits[i := true]) == Missing(bits) - if bits[i] then 0 else 1
  {
    if i == 0 {
      assert bits[i := true][1..] == bits[1..];
    } else {
      assert bits[i := true][1..] == bits[1..][i - 1 := true];
      MissingAfterSet(bits[1..], i - 1);
    }
  }

  lemma {:induction false} NoneMissing(bits: seq<bool>)
    ensures Missing(bits) == 0 <==> AllSet(bits)
  {
    if bits != [] {
      NoneMissing(bits[1..]);
      assert AllSet(bits) <==> bits[0] && AllSet(bits[1..]) by {
        if bits[0] && AllSet(bits[1..]) {
          forall i | 0 <= i < |bits|
            ensures bits[i]
          {
            assert i > 0 ==> bits[i] == bits[1..][i - 1];
          }
        }
        if AllSet(bits) {
          forall i | 0 <= i < |bits[1..]|
            ensures bits[1..][i]
          {
          }
        }
      }
    }
  }

  predicate IsPiece(out: Output) {
    out.Polled? && out.state.PieceFinished? && out.state.piece.Some?
  }

  predicate IsFinished(out: Output) {
    out == Polled(Finished)
  }

  function Count(outs: seq<Output>, f: Output -> bool): nat {
    if outs == [] then 0 else (if f(outs[0]) then 1 else 0) + Count(outs[1..], f)
  }

  /** Acknowledgements only repeat what assembly has already set. */
  predicate OnlyOwned(h: Handler, e: Event) {
    e.Acknowledge? && e.piece < |h.bitfield| ==> h.bitfield[e.piece]
  }

  ghost predicate OwnedRun(h: Handler, es: seq<Event>)
    decreases |es|
  {
    es == [] || (OnlyOwned(h, es[0]) && OwnedRun(Step(h, es[0]).0, es[1..]))
  }

  /** One step sets at most one bit, exactly when it reports a piece; bits are never cleared; Finished is
      reported when the flag goes up, which it does once and only with nothing missing. */
  lemma StepProgress(h: Handler, e: Event)
    requires Inv(h) && Possible(h, e) && Admissible(h, e) && OnlyOwned(h, e)
    ensures var (h', out) := Step(h, e);
            && |h'.bitfield| == |h.bitfield|
            && (forall i :: 0 <= i < |h.bitfield| && h.bitfield[i] ==> h'.bitfield[i])
            && Missing(h'.bitfield) + (if IsPiece(out) then 1 else 0) == Missing(h.bitfield)
            && (IsPiece(out) ==> var i := out.state.piece.value.metadata.pieceIndex;
                                 i < |h.bitfield| && !h.bitfield[i] && h'.bitfield[i])
            && (h'.finished <==> h.finished || IsFinished(out))
            && (IsFinished(out) ==> !h.finished && Missing(h.bitfield) == 0)
            && (h.finished ==> (out.Polled? ==> out.state == Seed))
  {
    NoneMissing(h.bitfield);
    hide Missing, BufferInv, Handler.NextPieceBuffer, Buffer.Next, Buffer.AddBlock, Buffer.RemovePeer,
      ValidOrders, AllSet;
    match e
    case Poll(order, ids) =>
      if h.buffer.Some? {
        PieceIsMissing(h);
        MissingAfterSet(h.bitfield, h.buffer.value.pieceIndex);
      }
    case Acknowledge(i) =>
      if i < |h.bitfield| {
        MissingAfterSet(h.bitfield, i);
      }
    case _ =>
  }

  lemma PieceIsMissing(h: Handler)
    requires Inv(h) && h.buffer.Some?
    ensures var b := h.buffer.value;
            && b.pieceIndex < |h.bitfield| && !h.bitfield[b.pieceIndex]
            && (b.Finalize().Some? ==> b.Finalize().value.metadata.pieceIndex == b.pieceIndex)
  {
  }

  lemma {:induction false} ProgressOverRuns(h: Handler, es: seq<Event>)
    requires Inv(h) && AdmissibleRun(h, es) && OwnedRun(h, es)
    ensures var (h', outs) := Run(h, es);
            && |h'.bitfield| == |h.bitfield|
            && (forall i :: 0 <= i < |h.bitfield| && h.bitfield[i] ==> h'.bitfield[i])
            && Missing(h'.bitfield) + Count(outs, IsPiece) == Missing(h.bitfield)
            && (if h'.finished && !h.finished then 1 else 0) == Count(outs, IsFinished)
            && (h.finished ==> h'.finished)
    decreases |es|
  {
    hide Step, Inv, Possible, Admissible, OnlyOwned, Missing, IsPiece, IsFinished;
    if es != [] {
      StepExact(h, es[0]);
      StepProgress(h, es[0]);
      ProgressOverRuns(Step(h, es[0]).0, es[1..]);
      var outs := Run(h, es).1;
      assert outs[1..] == Run(Step(h, es[0]).0, es[1..]).1;
    }
  }

  lemma {:induction false} OwnedSplit(h: Handler, es: seq<Event>, i: nat)
    requires i <= |es| && OwnedRun(h, es)
    ensures OwnedRun(h, es[..i]) && OwnedRun(Run(h, es[..i]).0, es[i..])
    decreases |es|
  {
    hide Step, OnlyOwned;
    if i > 0 {
      OwnedSplit(Step(h, es[0]).0, es[1..], i - 1);
      assert es[..i][1..] == es[1..][..i - 1] && es[1..][i - 1..] == es[i..];
    }
  }

  /** What one output says about the run before it. */
  lemma CompletionAt(h: Handler, es: seq<Event>, i: nat)
    requires Inv(h) && AdmissibleRun(h, es) && OwnedRun(h, es) && i < |es|
    ensures var outs := Run(h, es).1; IsFinished(outs[i]) ==> Count(outs[..i], IsPiece) == Missing(h.bitfield)
  {
    hide Run, Step, Inv, AdmissibleRun, OwnedRun, Missing, Count, Possible, Admissible, OnlyOwned;
    var mid := Halfway(h, es, i);
    StepProgress(mid, es[i]);
  }

  /** What two outputs say about each other. */
  lemma CompletionBetween(h: Handler, es: seq<Event>, i: nat, j: nat)
    requires Inv(h) && AdmissibleRun(h, es) && OwnedRun(h, es) && i < j < |es|
    ensures var outs := Run(h, es).1;
            && (IsFinished(outs[i]) && outs[j].Polled? ==> outs[j].state == Seed)
            && (IsPiece(outs[i]) && IsPiece(outs[j]) ==>
                  outs[i].state.piece.value.metadata.pieceIndex != outs[j].state.piece.value.metadata.pieceIndex)
  {
    var hi := Halfway(h, es, i);
    var e1 := es[i + 1..];
    var h1 := Step(hi, es[i]).0;
    StepExact(hi, es[i]);
    StepProgress(hi, es[i]);
    assert es[i..][1..] == e1;
    var hj := Halfway(h1, e1, j - i - 1);
    assert e1[j - i - 1] == es[j];
    StepProgress(hj, es[j]);
    assert Run(h, es).1[j] == Run(hi, es[i..]).1[1..][j - i - 1];
    assert Run(hi, es[i..]).1[1..] == Run(h1, e1).1;
  }

  /** Download completion. From a state with `k` pieces missing: Finished comes at most once, and only after
      exactly `k` pieces; every poll after it says Seed; and the reported pieces are pairwise different. */
  lemma DownloadCompletion(h: Handler, es: seq<Event>)
    requires Inv(h) && AdmissibleRun(h, es) && OwnedRun(h, es)
    ensures var outs := Run(h, es).1;
            && Count(outs, IsFinished) <= 1
            && (forall i :: 0 <= i < |es| && IsFinished(outs[i]) ==> Count(outs[..i], IsPiece) == Missing(h.bitfield))
            && (forall i, j :: 0 <= i < j < |es| && IsFinished(outs[i]) && outs[j].Polled? ==> outs[j].state == Seed)
            && (forall i, j :: 0 <= i < j < |es| && IsPiece(outs[i]) && IsPiece(outs[j]) ==>
                  outs[i].state.piece.value.metadata.pieceIndex != outs[j].state.piece.value.metadata.pieceIndex)
  {
    hide Run, Inv, AdmissibleRun, OwnedRun, Missing, Count;
    ProgressOverRuns(h, es);
    forall i | 0 <= i < |es|
      ensures IsFinished(Run(h, es).1[i]) ==> Count(Run(h, es).1[..i], IsPiece) == Missing(h.bitfield)
    {
      CompletionAt(h, es, i);
    }
    forall i, j | 0 <= i < j < |es|
      ensures var outs := Run(h, es).1;
              && (IsFinished(outs[i]) && outs[j].Polled? ==> outs[j].state == Seed)
              && (IsPiece(outs[i]) && IsPiece(outs[j]) ==>
                    outs[i].state.piece.value.metadata.pieceIndex != outs[j].state.piece.value.metadata.pieceIndex)
    {
      CompletionBetween(h, es, i, j);
    }
  }

  /** The state before event `i`, with what the prefix has done and what the rest may assume. */
  lemma Halfway(h: Handler, es: seq<Event>, i: nat) returns (mid: Handler)
    requires Inv(h) && AdmissibleRun(h, es) && OwnedRun(h, es) && i < |es|
    ensures mid == Run(h, es[..i]).0 && Inv(mid)
    ensures AdmissibleRun(mid, es[i..]) && OwnedRun(mid, es[i..])
    ensures Run(h, es).1[i..] == Run(mid, es[i..]).1
    ensures Run(h, es).1[i] == Step(mid, es[i]).1
    ensures Missing(mid.bitfield) + Count(Run(h, es).1[..i], IsPiece) == Missing(h.bitfield)
    ensures |mid.bitfield| == |h.bitfield|
    ensures forall k :: 0 <= k < |h.bitfield| && h.bitfield[k] ==> mid.bitfield[k]
    ensures h.finished ==> mid.finished
    ensures Possible(mid, es[i]) && Admissible(mid, es[i]) && OnlyOwned(mid, es[i])
  {
    mid := Run(h, es[..i]).0;
    RunAt(h, es, i);
    OwnedSplit(h, es, i);
    InvariantOverRuns(h, es[..i]);
    ProgressOverRuns(h, es[..i]);
    assert es[i..][0] == es[i];
  }
}
