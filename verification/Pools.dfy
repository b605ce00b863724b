/** The pool of torrents and its seeding requests: `TorrentPool` of src/peer/torrent.rs. */
module Pools {
  import opened Collections
  import opened Messages
  import opened Blocks
  import opened PieceBuffers
  import opened PieceHandlers

  type TorrentId = nat

  datatype TorrentState = Active | Paused | Stopped

  datatype Torrent = Torrent(infoHash: Bytes, handler: Handler, state: TorrentState)

  datatype HandshakeResult = Welcome | InfoHashMismatch | InvalidPeer

  /** What a scan over the torrents looks for. */
  datatype Query =
    | Tracking(peer: PeerId)
    | WithHash(hash: Bytes)
    | Seeding(peer: PeerId, piece: nat)
    | Holding(requestId: nat)

  /** What a scan over the pending seed requests looks for. */
  datatype SeedQuery = ForBlock(block: BlockMetadata) | WithId(requestId: nat)

  predicate Fits(r: SeedRequest, q: SeedQuery) {
    match q
    case ForBlock(block) => r.block == block
    case WithId(id) => r.requestId == id
  }

  /** The fields of a pool as a value. */
  datatype Pool = Pool(torrents: map<TorrentId, Torrent>, nextId: nat, maxActive: nat) {
    predicate Tracks(t: TorrentId, p: PeerId) {
      t in torrents && p in torrents[t].handler.peers
    }

    predicate IsAssociated(p: PeerId) {
      exists t :: t in torrents && Tracks(t, p)
    }

    predicate Matches(t: TorrentId, q: Query) {
      && t in torrents
      && var h := torrents[t].handler;
         match q
         case Tracking(p) => p in h.peers
         case WithHash(hash) => torrents[t].infoHash == hash
         case Seeding(p, piece) =>
           && p in h.peers
           && piece < |h.bitfield| && h.bitfield[piece]
           && h.peers[p].RemoteCanLeech()
           && (forall r :: r in h.seeds ==> r.peer != p)
         case Holding(id) => exists r :: r in h.seeds && r.requestId == id
    }

    /** Scan the torrents in the order of the hash map. */
    function FirstMatch(order: seq<TorrentId>, q: Query): (r: Option<TorrentId>)
      ensures r.Some? ==> r.value in order && Matches(r.value, q)
      ensures r.None? ==> forall t :: t in order ==> !Matches(t, q)
    {
      if order == [] then None
      else if Matches(order[0], q) then Some(order[0])
      else FirstMatch(order[1..], q)
    }

    /** Replace the piece handler of one torrent. */
    function With(t: TorrentId, h: Handler): Pool
      requires t in torrents
    {
      this.(torrents := torrents[t := torrents[t].(handler := h)])
    }

    function ActiveIds(): set<TorrentId> {
      set t | t in torrents && torrents[t].state.Active?
    }

    /** The state that `add_torrent` reports for a requested one. */
    function Limited(requested: TorrentState): TorrentState {
      if requested.Active? && |ActiveIds()| >= maxActive then Paused else requested
    }

    /** The requested state is stored, the limited one is returned. */
    function AddTorrent(hash: Bytes, h: Handler, requested: TorrentState): (Pool, Option<(TorrentId, TorrentState)>) {
      if exists t :: t in torrents && Matches(t, WithHash(hash)) then (this, None)
      else (Pool(torrents[nextId := Torrent(hash, h, requested)], nextId + 1, maxActive),
            Some((nextId, Limited(requested))))
    }

    /** The scans below go through the torrents in the order of the hash map. */
    function OnHandshakeRequest(p: PeerId, hash: Bytes, order: seq<TorrentId>): (Pool, HandshakeResult) {
      if IsAssociated(p) then (this, InvalidPeer)
      else
        var t := FirstMatch(order, WithHash(hash));
        if t.None? then (this, InfoHashMismatch)
        else (With(t.value, torrents[t.value].handler.InsertPeer(p, FRESH_PEER)), Welcome)
    }

    function OnHandshakeResponse(p: PeerId, t: TorrentId, hash: Bytes): (Pool, HandshakeResult) {
      if t !in torrents then (this, InvalidPeer)
      else if torrents[t].infoHash != hash then (this, InfoHashMismatch)
      else (With(t, torrents[t].handler.InsertPeer(p, FRESH_PEER)), Welcome)
    }

    function RemovePeer(p: PeerId, order: seq<TorrentId>): Pool {
      var t := FirstMatch(order, Tracking(p));
      if t.Some? then With(t.value, torrents[t.value].handler.RemovePeer(p)) else this
    }

    function OnChokeByRemote(p: PeerId, choked: bool, order: seq<TorrentId>): Pool {
      var t := FirstMatch(order, Tracking(p));
      if t.Some? then With(t.value, torrents[t.value].handler.SetRemoteChoke(p, choked)) else this
    }

    function OnPieceRequest(r: SeedRequest, order: seq<TorrentId>): (Pool, Option<TorrentId>) {
      var t := FirstMatch(order, Seeding(r.peer, r.block.pieceIndex));
      if t.Some? then
        var h := torrents[t.value].handler;
        (With(t.value, h.(seeds := h.seeds + [r])), t)
      else (this, None)
    }

    /** The torrent is the one whose read has completed. */
    function OnBlockRead(t: TorrentId, block: BlockMetadata): (Pool, Option<SeedRequest>) {
      if t !in torrents then (this, None)
      else
        var h := torrents[t].handler;
        var i := FirstSeed(h.seeds, ForBlock(block));
        if i < |h.seeds| then (With(t, h.(seeds := RemoveAt(h.seeds, i))), Some(h.seeds[i])) else (this, None)
    }

    /** Cancelling looks for the request id, torrent by torrent. */
    function OnCancelRequest(id: nat, order: seq<TorrentId>): (Pool, Option<(TorrentId, SeedRequest)>) {
      var t := FirstMatch(order, Holding(id));
      if t.Some? then
        var h := torrents[t.value].handler;
        var i := FirstSeed(h.seeds, WithId(id));
        (With(t.value, h.(seeds := RemoveAt(h.seeds, i))), Some((t.value, h.seeds[i])))
      else (this, None)
    }
  }

  function FirstSeed(seeds: seq<SeedRequest>, q: SeedQuery): (i: nat)
    ensures i <= |seeds| && (i < |seeds| ==> Fits(seeds[i], q))
    ensures forall j :: 0 <= j < i ==> !Fits(seeds[j], q)
  {
    if seeds == [] || Fits(seeds[0], q) then 0 else 1 + FirstSeed(seeds[1..], q)
  }

  /** What iterating over the hash map may yield. */
  ghost predicate Enumerates(order: seq<TorrentId>, s: Pool) {
    NoDuplicates(order) && forall t :: t in order <==> t in s.torrents
  }

  // ---------------------------------------------------------------- the pool

  class TorrentPool {
    var torrents: map<TorrentId, Torrent>
    var nextUniqueTorrent: nat
    const maxActiveTorrents: nat

    ghost function Model(): Pool
      reads this
    {
      Pool(torrents, nextUniqueTorrent, maxActiveTorrents)
    }

    constructor (maxActive: nat)
      ensures Model() == Pool(map[], 0, maxActive)
    {
      torrents, nextUniqueTorrent, maxActiveTorrents := map[], 0, maxActive;
    }

    method AddTorrent(hash: Bytes, h: Handler, requested: TorrentState) returns (r: Option<(TorrentId, TorrentState)>)
      modifies this
      ensures (Model(), r) == old(Model()).AddTorrent(hash, h, requested)
    {
      assert forall t :: Model().Matches(t, WithHash(hash)) <==> t in torrents && torrents[t].infoHash == hash;
      if exists t :: t in torrents && torrents[t].infoHash == hash {
        return None;
      }
      var state := requested;
      if requested.Active? {
        var active := set t | t in torrents && torrents[t].state.Active?;
        assert active == Model().ActiveIds();
        state := if |active| < maxActiveTorrents then Active else Paused;
      }
      r := Some((nextUniqueTorrent, state));
      torrents := torrents[nextUniqueTorrent := Torrent(hash, h, requested)];
      nextUniqueTorrent := nextUniqueTorrent + 1;
    }

    method OnHandshakeRequest(p: PeerId, hash: Bytes, order: seq<TorrentId>) returns (r: HandshakeResult)
      requires Enumerates(order, Model())
      modifies this
      ensures (Model(), r) == old(Model()).OnHandshakeRequest(p, hash, order)
    {
      for k := 0 to |order|
        invariant Model() == old(Model()) && forall j :: 0 <= j < k ==> !Model().Tracks(order[j], p)
      {
        if p in torrents[order[k]].handler.peers {
          assert Model().Tracks(order[k], p);
          return InvalidPeer;
        }
      }
      assert !Model().IsAssociated(p);
      ghost var s := Model();
      for k := 0 to |order|
        invariant Model() == s && s.FirstMatch(order, WithHash(hash)) == s.FirstMatch(order[k..], WithHash(hash))
      {
        var t := order[k];
        if torrents[t].infoHash == hash {
          torrents := torrents[t := torrents[t].(handler := torrents[t].handler.InsertPeer(p, FRESH_PEER))];
          return Welcome;
        }
        assert order[k..][1..] == order[k + 1..];
      }
      return InfoHashMismatch;
    }

    method OnHandshakeResponse(p: PeerId, t: TorrentId, hash: Bytes) returns (r: HandshakeResult)
      modifies this
      ensures (Model(), r) == old(Model()).OnHandshakeResponse(p, t, hash)
    {
      if t !in torrents {
        return InvalidPeer;
      }
      if torrents[t].infoHash == hash {
        torrents := torrents[t := torrents[t].(handler := torrents[t].handler.InsertPeer(p, FRESH_PEER))];
        return Welcome;
      }
      return InfoHashMismatch;
    }

    method RemovePeer(p: PeerId, order: seq<TorrentId>)
      requires Enumerates(order, Model())
      modifies this
      ensures Model() == old(Model()).RemovePeer(p, order)
    {
      ghost var s := Model();
      for k := 0 to |order|
        invariant Model() == s && s.FirstMatch(order, Tracking(p)) == s.FirstMatch(order[k..], Tracking(p))
      {
        var t := order[k];
        if p in torrents[t].handler.peers {
          torrents := torrents[t := torrents[t].(handler := torrents[t].handler.RemovePeer(p))];
          return;
        }
        assert order[k..][1..] == order[k + 1..];
      }
    }

    method OnChokeByRemote(p: PeerId, choked: bool, order: seq<TorrentId>)
      requires Enumerates(order, Model())
      modifies this
      ensures Model() == old(Model()).OnChokeByRemote(p, choked, order)
    {
      ghost var s := Model();
      for k := 0 to |order|
        invariant Model() == s && s.FirstMatch(order, Tracking(p)) == s.FirstMatch(order[k..], Tracking(p))
      {
        var t := order[k];
        if p in torrents[t].handler.peers {
          torrents := torrents[t := torrents[t].(handler := torrents[t].handler.SetRemoteChoke(p, choked))];
          return;
        }
        assert order[k..][1..] == order[k + 1..];
      }
    }

    method OnPieceRequest(r: SeedRequest, order: seq<TorrentId>) returns (id: Option<TorrentId>)
      requires Enumerates(order, Model())
      modifies this
      ensures (Model(), id) == old(Model()).OnPieceRequest(r, order)
    {
      ghost var s := Model();
      var q := Seeding(r.peer, r.block.pieceIndex);
      for k := 0 to |order|
        invariant Model() == s && s.FirstMatch(order, q) == s.FirstMatch(order[k..], q)
      {
        var t := order[k];
        if Pool(torrents, nextUniqueTorrent, maxActiveTorrents).Matches(t, q) {
          var h := torrents[t].handler;
          torrents := torrents[t := torrents[t].(handler := h.(seeds := h.seeds + [r]))];
          return Some(t);
        }
        assert order[k..][1..] == order[k + 1..];
      }
      return None;
    }

    method OnCancelRequest(id: nat, order: seq<TorrentId>) returns (r: Option<(TorrentId, SeedRequest)>)
      requires Enumerates(order, Model())
      modifies this
      ensures (Model(), r) == old(Model()).OnCancelRequest(id, order)
    {
      ghost var s := Model();
      for k := 0 to |order|
        invariant Model() == s && s.FirstMatch(order, Holding(id)) == s.FirstMatch(order[k..], Holding(id))
      {
        var t := order[k];
        var h := torrents[t].handler;
        var i := FirstSeed(h.seeds, WithId(id));
        if i < |h.seeds| {
          torrents := torrents[t := torrents[t].(handler := h.(seeds := RemoveAt(h.seeds, i)))];
          return Some((t, h.seeds[i]));
        }
        assert forall r :: r in h.seeds ==> !Fits(r, WithId(id));
        assert order[k..][1..] == order[k + 1..];
      }
      return None;
    }

    method OnBlockRead(t: TorrentId, block: BlockMetadata) returns (r: Option<SeedRequest>)
      modifies this
      ensures (Model(), r) == old(Model()).OnBlockRead(t, block)
    {
      if t !in torrents {
        return None;
      }
      var h := torrents[t].handler;
      var i := FirstSeed(h.seeds, ForBlock(block));
      if i < |h.seeds| {
        torrents := torrents[t := torrents[t].(handler := h.(seeds := RemoveAt(h.seeds, i)))];
        return Some(h.seeds[i]);
      }
      return None;
    }
  }
}
