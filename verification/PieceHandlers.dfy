/** The piece download scheduler of one torrent: `TorrentPieceHandler` of src/peer/piece.rs. */
module PieceHandlers {
  import opened Collections
  import opened Blocks
  import opened PieceBuffers
  import Layout

  // ---------------------------------------------------------------- state

  /** The part of `BitTorrentPeer` (src/peer/mod.rs) that the scheduler looks at. */
  datatype Peer = Peer(
    bitfield: Option<seq<bool>>,
    remoteChoked: bool,
    remoteInterested: bool,
    clientChoked: bool,
    clientInterested: bool)
  {
    predicate RemoteCanSeed() {
      !remoteChoked && clientInterested && bitfield.Some?
    }

    predicate RemoteCanSeedPiece(i: nat) {
      RemoteCanSeed() && i < |bitfield.value| && bitfield.value[i]
    }

    predicate RemoteCanLeech() {
      !clientChoked && remoteInterested
    }
  }

  /** A connection starts choked and not interested on both sides, without a bit field. */
  const FRESH_PEER := Peer(None, true, false, true, false)

  datatype PieceSelection = Random | Rarest

  datatype SeedRequest = SeedRequest(peer: PeerId, requestId: nat, block: BlockMetadata)

  datatype PollState =
    | WaitingPeers
    | LeechBlock(next: Option<NextBlock>)
    | PieceFinished(piece: Option<Block>)
    | Finished
    | Seed

  /** The fields of a handler as a value. */
  datatype Handler = Handler(
    strategy: PieceSelection,
    buffer: Option<Buffer>,
    seeds: seq<SeedRequest>,
    bitfield: seq<bool>,
    pieceLength: nat,
    lastPieceLength: nat,
    peers: map<PeerId, Peer>,
    finished: bool)
  {
    function LengthOf(i: nat): nat {
      Layout.PieceLengthAt(i, |bitfield|, pieceLength, lastPieceLength)
    }

    /** Every tracked peer can seed the piece: what collecting into an `Option` asks for. */
    predicate AllCanSeed(i: nat) {
      forall p :: p in peers ==> peers[p].RemoteCanSeedPiece(i)
    }

    function SetPiece(i: nat): Handler {
      if i < |bitfield| then this.(bitfield := bitfield[i := true]) else this
    }

    function InsertPeer(p: PeerId, peer: Peer): Handler {
      var joins := buffer.Some? && peer.RemoteCanSeedPiece(buffer.value.pieceIndex) && p !in peers;
      this.(buffer := if joins then Some(buffer.value.(peers := buffer.value.peers + [p])) else buffer,
            peers := peers[p := peer])
    }

    function RemovePeer(p: PeerId): Handler {
      if p !in peers then this
      else this.(peers := peers - {p}, buffer := if buffer.Some? then Some(buffer.value.RemovePeer(p)) else None)
    }

    function SetRemoteChoke(p: PeerId, choked: bool): Handler {
      if p !in peers then this
      else
        var peer := peers[p].(remoteChoked := choked);
        this.(peers := peers[p := peer],
              buffer := if buffer.None? then None
                        else if choked then Some(buffer.value.RemovePeer(p))
                        else if peer.RemoteCanSeedPiece(buffer.value.pieceIndex) then
                          Some(buffer.value.(peers := buffer.value.peers + [p]))
                        else buffer)
    }

    function AddBlock(p: PeerId, block: Block): (Handler, AddResult) {
      if buffer.None? then (this, NotRequested)
      else
        var (b, r) := buffer.value.AddBlock(p, block);
        (this.(buffer := Some(b)), r)
    }

    /** `order` is the shuffled list of missing pieces, `ids` the peers in the order of the map. */
    function NextRandomPiece(order: seq<nat>, ids: seq<PeerId>): Option<Buffer> {
      if order == [] then None
      else if AllCanSeed(order[0]) then Some(New(order[0], LengthOf(order[0]), ids))
      else NextRandomPiece(order[1..], ids)
    }

    /** The rest of the loop of `next_least_common_piece`, with the best candidate so far. */
    function RarestFrom(order: seq<nat>, ids: seq<PeerId>, best: Option<nat>): Option<Buffer> {
      if order == [] then
        if best.None? then None else Some(New(best.value, LengthOf(best.value), ids))
      else if AllCanSeed(order[0]) then
        if |ids| == 1 then Some(New(order[0], LengthOf(order[0]), ids))
        else RarestFrom(order[1..], ids, if best.Some? then best else Some(order[0]))
      else RarestFrom(order[1..], ids, best)
    }

    function NextLeastCommonPiece(order: seq<nat>, ids: seq<PeerId>): Option<Buffer> {
      if !exists p :: p in peers && peers[p].RemoteCanSeed() then None
      else RarestFrom(order, ids, None)
    }

    function NextPieceBuffer(order: seq<nat>, ids: seq<PeerId>): Option<Buffer> {
      match strategy
      case Random => NextRandomPiece(order, ids)
      case Rarest => NextLeastCommonPiece(order, ids)
    }

    function Poll(order: seq<nat>, ids: seq<PeerId>): (Handler, PollState) {
      if buffer.Some? then
        var b := buffer.value;
        if b.IsFull() then
          var piece := b.Finalize();
          (var h := this.(buffer := None); if piece.Some? then h.SetPiece(b.pieceIndex) else h, PieceFinished(piece))
        else (this.(buffer := Some(b.Next().0)), LeechBlock(b.Next().1))
      else if finished then (this, Seed)
      else if AllSet(bitfield) then (this.(finished := true), Finished)
      else
        var next := NextPieceBuffer(order, ids);
        if next.None? then (this, WaitingPeers)
        else (this.(buffer := Some(next.value.Next().0)), LeechBlock(next.value.Next().1))
    }
  }

  predicate AllSet(bits: seq<bool>) {
    forall i :: 0 <= i < |bits| ==> bits[i]
  }

  function Init(strategy: PieceSelection, bitfield: seq<bool>, pieceLength: nat, lastPieceLength: nat): Handler {
    Handler(strategy, None, [], bitfield, pieceLength, lastPieceLength, map[], AllSet(bitfield))
  }

  /** What the shuffle and the map iteration may yield. */
  ghost predicate ValidOrders(h: Handler, order: seq<nat>, ids: seq<PeerId>) {
    && NoDuplicates(order) && (forall i: nat :: i in order <==> i < |h.bitfield| && !h.bitfield[i])
    && NoDuplicates(ids) && (forall p :: p in ids <==> p in h.peers)
  }

  // ---------------------------------------------------------------- the handler

  class TorrentPieceHandler {
    const strategy: PieceSelection
    const pieceLength: nat
    const lastPieceLength: nat
    var pieceBuffer: PieceBuffer?
    var pendingSeedBlocks: seq<SeedRequest>
    var bitfield: seq<bool>
    var peers: map<PeerId, Peer>
    var finished: bool

    ghost function Model(): Handler
      reads this, pieceBuffer
    {
      Handler(strategy, if pieceBuffer == null then None else Some(pieceBuffer.Model()),
              pendingSeedBlocks, bitfield, pieceLength, lastPieceLength, peers, finished)
    }

    constructor (strategy: PieceSelection, bitfield: seq<bool>, pieceLength: nat, lastPieceLength: nat)
      ensures Model() == Init(strategy, bitfield, pieceLength, lastPieceLength)
    {
      this.strategy, this.bitfield := strategy, bitfield;
      this.pieceLength, this.lastPieceLength := pieceLength, lastPieceLength;
      pieceBuffer, pendingSeedBlocks, peers, finished := null, [], map[], AllSet(bitfield);
    }

    method SetPiece(i: nat)
      modifies this`bitfield
      ensures Model() == old(Model()).SetPiece(i)
    {
      if i < |bitfield| {
        bitfield := bitfield[i := true];
      }
    }

    method InsertPeer(p: PeerId, peer: Peer)
      modifies this, pieceBuffer
      ensures Model() == old(Model()).InsertPeer(p, peer)
    {
      if pieceBuffer != null && peer.RemoteCanSeedPiece(pieceBuffer.pieceIndex) && p !in peers {
        pieceBuffer.peers := pieceBuffer.peers + [p];
      }
      peers := peers[p := peer];
    }

    method RemovePeer(p: PeerId)
      modifies this, pieceBuffer
      ensures Model() == old(Model()).RemovePeer(p)
    {
      if p in peers {
        peers := peers - {p};
        if pieceBuffer != null {
          pieceBuffer.RemovePeer(p);
        }
      }
    }

    method SetChokeOnRemote(p: PeerId, choked: bool)
      modifies this, pieceBuffer
      ensures Model() == old(Model()).SetRemoteChoke(p, choked)
    {
      if p in peers {
        peers := peers[p := peers[p].(remoteChoked := choked)];
        if pieceBuffer != null {
          if choked {
            pieceBuffer.RemovePeer(p);
          } else if peers[p].RemoteCanSeedPiece(pieceBuffer.pieceIndex) {
            pieceBuffer.peers := pieceBuffer.peers + [p];
          }
        }
      }
    }

    method AddBlock(p: PeerId, block: Block) returns (r: AddResult)
      modifies this, pieceBuffer
      ensures (Model(), r) == old(Model()).AddBlock(p, block)
    {
      if pieceBuffer != null {
        r := pieceBuffer.AddBlock(p, block);
      } else {
        r := NotRequested;
      }
    }

    /** The collection over the peers of the selection loops. */
    method CandidatePeers(i: nat, ids: seq<PeerId>) returns (candidates: Option<seq<PeerId>>)
      requires forall p :: p in ids <==> p in peers
      ensures candidates == if forall p :: p in peers ==>
                                 && peers[p].bitfield.Some? && i < |peers[p].bitfield.value|
                                 && peers[p].bitfield.value[i]
                                 && peers[p].clientInterested && !peers[p].remoteChoked
                            then Some(ids) else None
    {
      var found: seq<PeerId> := [];
      for k := 0 to |ids|
        invariant found == ids[..k]
        invariant forall j :: 0 <= j < k ==> peers[ids[j]].RemoteCanSeedPiece(i)
      {
        if !peers[ids[k]].RemoteCanSeedPiece(i) {
          return None;
        }
        found := found + [ids[k]];
      }
      forall p | p in peers
        ensures peers[p].RemoteCanSeedPiece(i)
      {
        assert p in ids;
      }
      assert found == ids;
      return Some(found);
    }

    method NextRandomPiece(order: seq<nat>, ids: seq<PeerId>) returns (next: PieceBuffer?)
      requires forall p :: p in ids <==> p in peers
      ensures next != null ==> fresh(next)
      ensures (if next == null then None else Some(next.Model())) == Model().NextRandomPiece(order, ids)
    {
      for k := 0 to |order|
        invariant Model().NextRandomPiece(order, ids) == Model().NextRandomPiece(order[k..], ids)
      {
        var candidates := CandidatePeers(order[k], ids);
        if candidates.Some? {
          next := new PieceBuffer(order[k], PieceLength(order[k]), candidates.value);
          return;
        }
        assert order[k..][1..] == order[k + 1..];
      }
      return null;
    }

    method NextLeastCommonPiece(order: seq<nat>, ids: seq<PeerId>) returns (next: PieceBuffer?)
      requires forall p :: p in ids <==> p in peers
      ensures next != null ==> fresh(next)
      ensures (if next == null then None else Some(next.Model())) == Model().NextLeastCommonPiece(order, ids)
    {
      if !exists p :: p in peers && peers[p].RemoteCanSeed() {
        return null;
      }
      var rarestPeers: Option<seq<PeerId>> := None;
      var rarestPiece := 0;
      for k := 0 to |order|
        invariant rarestPeers.Some? ==> rarestPeers.value == ids
        invariant Model().NextLeastCommonPiece(order, ids)
               == Model().RarestFrom(order[k..], ids, if rarestPeers.Some? then Some(rarestPiece) else None)
      {
        assert order[k..][1..] == order[k + 1..];
        var pieceIndex := order[k];
        var candidates := CandidatePeers(pieceIndex, ids);
        if candidates.Some? {
          if |candidates.value| == 1 {
            next := new PieceBuffer(pieceIndex, PieceLength(pieceIndex), candidates.value);
            return;
          }
          if rarestPeers.Some? {
            if |candidates.value| < |rarestPeers.value| {
              rarestPiece, rarestPeers := pieceIndex, candidates;
            }
          } else {
            rarestPiece, rarestPeers := pieceIndex, candidates;
          }
        }
      }
      if rarestPeers.Some? {
        next := new PieceBuffer(rarestPiece, PieceLength(rarestPiece), rarestPeers.value);
      } else {
        next := null;
      }
    }

    function PieceLength(i: nat): (n: nat)
      reads this`bitfield
      ensures n == Layout.PieceLengthAt(i, |bitfield|, pieceLength, lastPieceLength)
    {
      if i == |bitfield| - 1 then lastPieceLength else pieceLength
    }

    method Poll(order: seq<nat>, ids: seq<PeerId>) returns (state: PollState)
      requires forall p :: p in ids <==> p in peers
      modifies this, pieceBuffer
      ensures (Model(), state) == old(Model()).Poll(order, ids)
    {
      var buffer := pieceBuffer;
      if buffer != null {
        if |buffer.blocks| == buffer.totalBlocks {
          var piece := buffer.TryFinalizePiece();
          pieceBuffer := null;
          if piece.Some? {
            SetPiece(piece.value.metadata.pieceIndex);
          }
          return PieceFinished(piece);
        }
        var next := buffer.Next();
        return LeechBlock(next);
      }
      if finished {
        return Seed;
      }
      if AllSet(bitfield) {
        finished := true;
        return Finished;
      }
      if strategy == Random {
        buffer := NextRandomPiece(order, ids);
      } else {
        buffer := NextLeastCommonPiece(order, ids);
      }
      if buffer == null {
        return WaitingPeers;
      }
      var next := buffer.Next();
      pieceBuffer := buffer;
      return LeechBlock(next);
    }
  }
}
