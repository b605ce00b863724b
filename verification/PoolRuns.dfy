/** Runs of the pool: identifiers, peers and the ledger of seeding requests (src/peer/torrent.rs). */
module PoolRuns {
  import opened Collections
  import opened Messages
  import opened Blocks
  import opened PieceBuffers
  import opened PieceHandlers
  import opened Pools
  import D = Downloads

  datatype Event =
    | Add(hash: Bytes, strategy: PieceSelection, bitfield: seq<bool>, pieceLength: nat, lastPieceLength: nat,
          state: TorrentState)
    | HandshakeRequest(peer: PeerId, hash: Bytes, order: seq<TorrentId>)
    | HandshakeResponse(peer: PeerId, torrent: TorrentId, hash: Bytes)
    | Disconnect(peer: PeerId, order: seq<TorrentId>)
    | ChokeByRemote(peer: PeerId, choked: bool, order: seq<TorrentId>)
    | PieceRequest(request: SeedRequest, order: seq<TorrentId>)
    | BlockRead(torrent: TorrentId, block: BlockMetadata)
    | CancelRequest(id: nat, order: seq<TorrentId>)
    | Drive(torrent: TorrentId, inner: D.Event)

  datatype Output =
    | Added(id: TorrentId, state: TorrentState)
    | Granted(torrent: TorrentId, request: SeedRequest)
    | Served(torrent: TorrentId, request: SeedRequest)
    | Cancelled(torrent: TorrentId, request: SeedRequest)
    | Greeted(result: HandshakeResult)
    | Quiet

  /** `Drive` is a poll, a block response, an acknowledgement or a setter of one torrent. */
  function Step(s: Pool, e: Event): (Pool, Output) {
    match e
    case Add(hash, strategy, bitfield, pl, lpl, state) =>
      var (s', r) := s.AddTorrent(hash, Init(strategy, bitfield, pl, lpl), state);
      (s', if r.Some? then Added(r.value.0, r.value.1) else Quiet)
    case HandshakeRequest(p, hash, order) =>
      var (s', r) := s.OnHandshakeRequest(p, hash, order);
      (s', Greeted(r))
    case HandshakeResponse(p, t, hash) =>
      var (s', r) := s.OnHandshakeResponse(p, t, hash);
      (s', Greeted(r))
    case Disconnect(p, order) => (s.RemovePeer(p, order), Quiet)
    case ChokeByRemote(p, choked, order) => (s.OnChokeByRemote(p, choked, order), Quiet)
    case PieceRequest(r, order) =>
      var (s', t) := s.OnPieceRequest(r, order);
      (s', if t.Some? then Granted(t.value, r) else Quiet)
    case BlockRead(t, block) =>
      var (s', r) := s.OnBlockRead(t, block);
      (s', if r.Some? then Served(t, r.value) else Quiet)
    case CancelRequest(id, order) =>
      var (s', r) := s.OnCancelRequest(id, order);
      (s', if r.Some? then Cancelled(r.value.0, r.value.1) else Quiet)
    case Drive(t, inner) =>
      (if t in s.torrents then s.With(t, D.Step(s.torrents[t].handler, inner).0) else s, Quiet)
  }

  ghost predicate Possible(s: Pool, e: Event) {
    match e
    case HandshakeRequest(_, _, order) => Enumerates(order, s)
    case Disconnect(_, order) => Enumerates(order, s)
    case ChokeByRemote(_, _, order) => Enumerates(order, s)
    case PieceRequest(_, order) => Enumerates(order, s)
    case CancelRequest(_, order) => Enumerates(order, s)
    case Drive(t, inner) =>
      && (inner.Poll? || inner.BlockResponse? || inner.Acknowledge? || inner.UpdatePeer?)
      && (t in s.torrents ==> D.Possible(s.torrents[t].handler, inner))
    case _ => true
  }

  /** What the pool needs of its environment: a handshake response comes from a peer that no other
      torrent tracks, and each torrent gets only events its scheduler admits. */
  ghost predicate Admissible(s: Pool, e: Event) {
    match e
    case HandshakeResponse(p, t, hash) =>
      s.Matches(t, WithHash(hash)) ==>
        && (forall u :: s.Tracks(u, p) ==> u == t)
        && D.Admissible(s.torrents[t].handler, D.InsertPeer(p, FRESH_PEER))
    case ChokeByRemote(p, choked, _) =>
      forall t :: s.Tracks(t, p) ==> D.Admissible(s.torrents[t].handler, D.RemoteChoke(p, choked))
    case Drive(t, inner) => t in s.torrents ==> D.Admissible(s.torrents[t].handler, inner)
    case _ => true
  }

  // ---------------------------------------------------------------- the invariant

  /** At most one pending seed request per peer, each for a piece that is owned. */
  ghost predicate SeedsFine(h: Handler) {
    && (forall i, j :: 0 <= i < j < |h.seeds| ==> h.seeds[i].peer != h.seeds[j].peer)
    && (forall r :: r in h.seeds ==> r.block.pieceIndex < |h.bitfield| && h.bitfield[r.block.pieceIndex])
  }

  ghost predicate HandlerFine(h: Handler) {
    D.Inv(h) && SeedsFine(h)
  }

  ghost predicate Inv(s: Pool) {
    && (forall t :: t in s.torrents ==> t < s.nextId)
    && (forall t, u :: t in s.torrents && u in s.torrents && s.torrents[t].infoHash == s.torrents[u].infoHash ==>
          t == u)
    && (forall t, u, p :: s.Tracks(t, p) && s.Tracks(u, p) ==> t == u)
    && (forall t :: t in s.torrents ==> HandlerFine(s.torrents[t].handler))
  }

  /** Replacing one handler is right if and only if the new handler is, and it tracks no peer of another
      torrent. */
  lemma WithExact(s: Pool, t: TorrentId, h: Handler)
    requires Inv(s) && t in s.torrents
    ensures Inv(s.With(t, h)) <==> HandlerFine(h) && forall u, p :: p in h.peers && s.Tracks(u, p) ==> u == t
  {
    hide HandlerFine;
    var s' := s.With(t, h);
    assert forall u, p :: u != t ==> (s'.Tracks(u, p) <==> s.Tracks(u, p));
    assert forall p :: s'.Tracks(t, p) <==> p in h.peers;
    if Inv(s') {
      assert HandlerFine(s'.torrents[t].handler);
    }
  }

  lemma AddKeeps(s: Pool, hash: Bytes, strategy: PieceSelection, bitfield: seq<bool>, pl: nat, lpl: nat,
                 state: TorrentState)
    requires Inv(s)
    ensures Inv(s.AddTorrent(hash, Init(strategy, bitfield, pl, lpl), state).0)
  {
    hide HandlerFine;
    var h := Init(strategy, bitfield, pl, lpl);
    D.InitIsFine(strategy, bitfield, pl, lpl);
    assert HandlerFine(h) by { InitHandlerFine(strategy, bitfield, pl, lpl); }
    if !exists t :: t in s.torrents && s.Matches(t, WithHash(hash)) {
      var s' := s.AddTorrent(hash, h, state).0;
      assert forall t, p :: s'.Tracks(t, p) ==> s.Tracks(t, p);
      forall t | t in s.torrents
        ensures s.torrents[t].infoHash != hash
      {
        assert !s.Matches(t, WithHash(hash));
      }
    }
  }

  lemma InitHandlerFine(strategy: PieceSelection, bitfield: seq<bool>, pl: nat, lpl: nat)
    ensures HandlerFine(Init(strategy, bitfield, pl, lpl))
  {
    D.InitIsFine(strategy, bitfield, pl, lpl);
  }

  lemma InsertFine(h: Handler, p: PeerId)
    requires HandlerFine(h)
    ensures HandlerFine(h.InsertPeer(p, FRESH_PEER)) <==> D.Admissible(h, D.InsertPeer(p, FRESH_PEER))
    ensures h.InsertPeer(p, FRESH_PEER).peers.Keys == h.peers.Keys + {p}
  {
    D.InsertKeeps(h, p, FRESH_PEER);
  }

  lemma HandshakeRequestKeeps(s: Pool, p: PeerId, hash: Bytes, order: seq<TorrentId>)
    requires Inv(s) && Enumerates(order, s)
    ensures Inv(s.OnHandshakeRequest(p, hash, order).0)
  {
    var t := s.FirstMatch(order, WithHash(hash));
    if !s.IsAssociated(p) && t.Some? {
      var h := s.torrents[t.value].handler;
      assert !s.Tracks(t.value, p);
      InsertFine(h, p);
      assert D.Admissible(h, D.InsertPeer(p, FRESH_PEER)) by { UntrackedIsUnknown(h, p); }
      WithExact(s, t.value, h.InsertPeer(p, FRESH_PEER));
      forall u, q | q in h.peers.Keys + {p} && s.Tracks(u, q)
        ensures u == t.value
      {
        assert q != p;
        assert s.Tracks(t.value, q);
      }
    }
  }

  lemma UntrackedIsUnknown(h: Handler, p: PeerId)
    requires D.Inv(h) && p !in h.peers
    ensures h.buffer.Some? ==> !h.buffer.value.Knows(p)
  {
  }

  lemma HandshakeResponseExact(s: Pool, p: PeerId, t: TorrentId, hash: Bytes)
    requires Inv(s)
    ensures Inv(s.OnHandshakeResponse(p, t, hash).0) <==> Admissible(s, HandshakeResponse(p, t, hash))
  {
    hide HandlerFine;
    if s.Matches(t, WithHash(hash)) {
      var h := s.torrents[t].handler;
      assert HandlerFine(h);
      InsertFine(h, p);
      var h' := h.InsertPeer(p, FRESH_PEER);
      WithExact(s, t, h');
      assert p in h'.peers;
      if forall u :: s.Tracks(u, p) ==> u == t {
        forall u, q | q in h'.peers && s.Tracks(u, q)
          ensures u == t
        {
          assert q != p ==> s.Tracks(t, q);
        }
      }
    }
  }

  lemma DisconnectKeeps(s: Pool, p: PeerId, order: seq<TorrentId>)
    requires Inv(s) && Enumerates(order, s)
    ensures Inv(s.RemovePeer(p, order))
  {
    var t := s.FirstMatch(order, Tracking(p));
    if t.Some? {
      var h := s.torrents[t.value].handler;
      D.DropKeeps(h, p);
      WithExact(s, t.value, h.RemovePeer(p));
      assert forall q :: q in h.RemovePeer(p).peers ==> s.Tracks(t.value, q);
    }
  }

  lemma ChokeFine(h: Handler, p: PeerId, choked: bool)
    requires HandlerFine(h) && p in h.peers
    ensures HandlerFine(h.SetRemoteChoke(p, choked)) <==> D.Admissible(h, D.RemoteChoke(p, choked))
    ensures h.SetRemoteChoke(p, choked).peers.Keys == h.peers.Keys
  {
    D.StepExact(h, D.RemoteChoke(p, choked));
    hide D.Inv, D.Admissible, Buffer.RemovePeer;
  }

  lemma ChokeExact(s: Pool, p: PeerId, choked: bool, order: seq<TorrentId>)
    requires Inv(s) && Enumerates(order, s)
    ensures Inv(s.OnChokeByRemote(p, choked, order)) <==> Admissible(s, ChokeByRemote(p, choked, order))
  {
    hide HandlerFine, D.Admissible, Handler.SetRemoteChoke;
    var t := s.FirstMatch(order, Tracking(p));
    if t.Some? {
      var h := s.torrents[t.value].handler;
      var h' := h.SetRemoteChoke(p, choked);
      assert HandlerFine(h);
      ChokeFine(h, p, choked);
      WithExact(s, t.value, h');
      assert s.Tracks(t.value, p);
      assert forall q :: q in h.peers.Keys ==> s.Tracks(t.value, q);
    } else {
      assert forall u :: s.Tracks(u, p) ==> u in order && s.Matches(u, Tracking(p));
    }
  }

  /** Changing only the seed requests keeps everything but, perhaps, their own discipline. */
  lemma SeedsExact(s: Pool, t: TorrentId, seeds: seq<SeedRequest>)
    requires Inv(s) && t in s.torrents
    ensures var h := s.torrents[t].handler.(seeds := seeds);
            Inv(s.With(t, h)) <==> SeedsFine(h)
  {
    var h := s.torrents[t].handler;
    WithExact(s, t, h.(seeds := seeds));
    assert forall p :: p in h.peers ==> s.Tracks(t, p);
  }

  lemma PieceRequestKeeps(s: Pool, r: SeedRequest, order: seq<TorrentId>)
    requires Inv(s) && Enumerates(order, s)
    ensures Inv(s.OnPieceRequest(r, order).0)
  {
    hide D.Inv;
    var t := s.FirstMatch(order, Seeding(r.peer, r.block.pieceIndex));
    if t.Some? {
      var h := s.torrents[t.value].handler;
      assert HandlerFine(h);
      SeedsExact(s, t.value, h.seeds + [r]);
      hide Inv;
    }
  }

  lemma TakeSeedKeeps(s: Pool, t: TorrentId, i: nat)
    requires Inv(s) && t in s.torrents && i < |s.torrents[t].handler.seeds|
    ensures var h := s.torrents[t].handler; Inv(s.With(t, h.(seeds := RemoveAt(h.seeds, i))))
  {
    var h := s.torrents[t].handler;
    SeedsExact(s, t, RemoveAt(h.seeds, i));
    assert HandlerFine(h);
    TakenIsFine(h, i);
    hide Inv;
  }

  lemma TakenIsFine(h: Handler, i: nat)
    requires SeedsFine(h) && i < |h.seeds|
    ensures SeedsFine(h.(seeds := RemoveAt(h.seeds, i)))
  {
    var rest := RemoveAt(h.seeds, i);
    assert forall k :: 0 <= k < |rest| ==> rest[k] == h.seeds[if k < i then k else k + 1];
  }

  lemma DriveFine(h: Handler, e: D.Event)
    requires HandlerFine(h) && D.Possible(h, e)
    requires e.Poll? || e.BlockResponse? || e.Acknowledge? || e.UpdatePeer?
    ensures HandlerFine(D.Step(h, e).0) <==> D.Admissible(h, e)
    ensures D.Step(h, e).0.peers.Keys == h.peers.Keys
  {
    D.StepExact(h, e);
    DriveShape(h, e);
    hide D.Inv, D.Possible, D.Admissible, D.Step;
  }

  /** Such an event leaves the seed requests and the set of peers alone, and takes no piece away. */
  lemma DriveShape(h: Handler, e: D.Event)
    requires e.Poll? || e.BlockResponse? || e.Acknowledge? || e.UpdatePeer?
    ensures var h' := D.Step(h, e).0;
            && h'.seeds == h.seeds && h'.peers.Keys == h.peers.Keys && |h'.bitfield| == |h.bitfield|
            && forall i :: 0 <= i < |h.bitfield| && h.bitfield[i] ==> h'.bitfield[i]
  {
    hide Handler.NextPieceBuffer, Buffer.Finalize, Buffer.Next, Buffer.AddBlock, Buffer.IsFull, AllSet;
  }

  lemma DriveExact(s: Pool, t: TorrentId, e: D.Event)
    requires Inv(s) && Possible(s, Drive(t, e))
    ensures Inv(Step(s, Drive(t, e)).0) <==> Admissible(s, Drive(t, e))
  {
    hide HandlerFine, D.Step;
    if t in s.torrents {
      var h := s.torrents[t].handler;
      assert HandlerFine(h);
      DriveFine(h, e);
      WithExact(s, t, D.Step(h, e).0);
      assert forall p :: p in h.peers.Keys ==> s.Tracks(t, p);
    }
  }

  /** One step keeps the invariant of the pool if and only if it is admissible. */
  lemma StepExact(s: Pool, e: Event)
    requires Inv(s) && Possible(s, e)
    ensures Inv(Step(s, e).0) <==> Admissible(s, e)
  {
    hide Inv, D.Step;
    match e
    case Add(hash, strategy, bitfield, pl, lpl, state) => AddKeeps(s, hash, strategy, bitfield, pl, lpl, state);
    case HandshakeRequest(p, hash, order) => HandshakeRequestKeeps(s, p, hash, order);
    case HandshakeResponse(p, t, hash) => HandshakeResponseExact(s, p, t, hash);
    case Disconnect(p, order) => DisconnectKeeps(s, p, order);
    case ChokeByRemote(p, choked, order) => ChokeExact(s, p, choked, order);
    case PieceRequest(r, order) => PieceRequestKeeps(s, r, order);
    case BlockRead(t, block) =>
      if t in s.torrents {
        var i := FirstSeed(s.torrents[t].handler.seeds, ForBlock(block));
        if i < |s.torrents[t].handler.seeds| {
          TakeSeedKeeps(s, t, i);
        }
      }
    case CancelRequest(id, order) =>
      var t := s.FirstMatch(order, Holding(id));
      if t.Some? {
        TakeSeedKeeps(s, t.value, FirstSeed(s.torrents[t.value].handler.seeds, WithId(id)));
      }
    case Drive(t, inner) => DriveExact(s, t, inner);
  }

  // ---------------------------------------------------------------- scans

  /** In a pool in order, at most one torrent matches a peer, a hash or a seedable piece. */
  lemma MatchIsUnique(s: Pool, q: Query, t: TorrentId, u: TorrentId)
    requires Inv(s) && !q.Holding? && s.Matches(t, q) && s.Matches(u, q)
    ensures t == u
  {
    if !q.WithHash? {
      assert s.Tracks(t, q.peer) && s.Tracks(u, q.peer);
    }
  }

  /** First-match scans do not depend on the order of the hash map. */
  lemma ScanOrderIrrelevant(s: Pool, q: Query, a: seq<TorrentId>, b: seq<TorrentId>)
    requires Inv(s) && !q.Holding? && Enumerates(a, s) && Enumerates(b, s)
    ensures s.FirstMatch(a, q) == s.FirstMatch(b, q)
  {
    var x, y := s.FirstMatch(a, q), s.FirstMatch(b, q);
    if x.Some? && y.Some? {
      MatchIsUnique(s, q, x.value, y.value);
    }
  }

  /** A disconnect clears the peer from the whole pool and touches no other peer. */
  lemma RemovePeerClears(s: Pool, p: PeerId, order: seq<TorrentId>)
    requires Inv(s) && Enumerates(order, s)
    ensures !s.RemovePeer(p, order).IsAssociated(p)
    ensures forall t, q :: q != p ==> (s.RemovePeer(p, order).Tracks(t, q) <==> s.Tracks(t, q))
  {
    var t := s.FirstMatch(order, Tracking(p));
    var s' := s.RemovePeer(p, order);
    forall u | s'.Tracks(u, p)
      ensures false
    {
      assert s.Tracks(u, p) && u in order && s.Matches(u, Tracking(p));
      assert s.Tracks(t.value, p);
    }
  }

  // ---------------------------------------------------------------- runs

  function Run(s: Pool, es: seq<Event>): (r: (Pool, seq<Output>))
    ensures |r.1| == |es|
    decreases |es|
  {
    if es == [] then (s, [])
    else
      var (s', out) := Step(s, es[0]);
      var (last, outs) := Run(s', es[1..]);
      (last, [out] + outs)
  }

  ghost predicate AdmissibleRun(s: Pool, es: seq<Event>)
    decreases |es|
  {
    es == [] || (Possible(s, es[0]) && Admissible(s, es[0]) && AdmissibleRun(Step(s, es[0]).0, es[1..]))
  }

  /** Over every admissible run of a new pool: identifiers below the next one, info hashes and peers in
      at most one torrent, every scheduler in order, every pending seed request in order. */
  lemma {:induction false} InvariantOverRuns(s: Pool, es: seq<Event>)
    requires Inv(s) && AdmissibleRun(s, es)
    ensures Inv(Run(s, es).0)
    decreases |es|
  {
    hide Step, Inv, Possible, Admissible;
    if es != [] {
      StepExact(s, es[0]);
      InvariantOverRuns(Step(s, es[0]).0, es[1..]);
    }
  }

  lemma EmptyPoolIsFine(maxActive: nat)
    ensures Inv(Pool(map[], 0, maxActive))
  {
  }

  /** The limit on active torrents: adding keeps it if and only if it does not add an active torrent to a full pool,
      although the state reported for that one is Paused. */
  lemma ActiveLimitExact(s: Pool, hash: Bytes, h: Handler, requested: TorrentState)
    requires Inv(s) && |s.ActiveIds()| <= s.maxActive
    ensures var (s', r) := s.AddTorrent(hash, h, requested);
            && (|s'.ActiveIds()| <= s'.maxActive <==> !(r.Some? && requested.Active? && |s.ActiveIds()| == s.maxActive))
            && (r.Some? ==> (s'.torrents[r.value.0].state == r.value.1
                             <==> !(requested.Active? && |s.ActiveIds()| == s.maxActive)))
  {
    hide HandlerFine, Pool.Matches;
    var (s', r) := s.AddTorrent(hash, h, requested);
    if r.Some? {
      assert s.nextId !in s.torrents;
      assert s'.ActiveIds() == if requested.Active? then s.ActiveIds() + {s.nextId} else s.ActiveIds();
    }
  }

  /** Torrents stay, and a new one gets an identifier never used before. */
  lemma StepGrows(s: Pool, e: Event)
    requires Inv(s)
    ensures var (s', out) := Step(s, e);
            && s.torrents.Keys <= s'.torrents.Keys && s.nextId <= s'.nextId
            && (out.Added? ==> out.id == s.nextId < s'.nextId && out.id !in s.torrents)
            && (forall t :: t in s.torrents ==> s'.torrents[t].infoHash == s.torrents[t].infoHash)
  {
    hide D.Step, HandlerFine, Handler.InsertPeer, Handler.RemovePeer, Handler.SetRemoteChoke, Pool.Matches;
  }

  lemma {:induction false} RunGrows(s: Pool, es: seq<Event>)
    requires Inv(s) && AdmissibleRun(s, es)
    ensures s.nextId <= Run(s, es).0.nextId
    ensures forall i :: 0 <= i < |es| && Run(s, es).1[i].Added? ==> s.nextId <= Run(s, es).1[i].id
    decreases |es|
  {
    hide Step, Inv, Possible, Admissible;
    if es != [] {
      StepExact(s, es[0]);
      StepGrows(s, es[0]);
      RunGrows(Step(s, es[0]).0, es[1..]);
    }
  }

  /** Two torrents added in the same run never share an identifier. */
  lemma {:induction false} FreshIdentifiers(s: Pool, es: seq<Event>, i: nat, j: nat)
    requires Inv(s) && AdmissibleRun(s, es) && i < j < |es|
    requires Run(s, es).1[i].Added? && Run(s, es).1[j].Added?
    ensures Run(s, es).1[i].id < Run(s, es).1[j].id
    decreases |es|
  {
    hide Step, Inv, Possible, Admissible;
    var (s', out) := Step(s, es[0]);
    StepExact(s, es[0]);
    assert Run(s, es).1[j] == Run(s', es[1..]).1[j - 1];
    if i == 0 {
      StepGrows(s, es[0]);
      RunGrows(s', es[1..]);
    } else {
      assert Run(s, es).1[i] == Run(s', es[1..]).1[i - 1];
      FreshIdentifiers(s', es[1..], i - 1, j - 1);
    }
  }

  // ---------------------------------------------------------------- the seeding ledger

  ghost function Pending(s: Pool, t: TorrentId): multiset<SeedRequest> {
    if t in s.torrents then multiset(s.torrents[t].handler.seeds) else multiset{}
  }

  /** The request that an output accepts for the torrent, if any. */
  ghost function GrantedBy(out: Output, t: TorrentId): multiset<SeedRequest> {
    if out.Granted? && out.torrent == t then multiset{out.request} else multiset{}
  }

  /** The request that an output serves or cancels, if any. */
  ghost function ClosedBy(out: Output, t: TorrentId): multiset<SeedRequest> {
    if (out.Served? || out.Cancelled?) && out.torrent == t then multiset{out.request} else multiset{}
  }

  /** The accounts of one torrent, as functions of an output. */
  ghost function GrantedFor(t: TorrentId): Output -> multiset<SeedRequest> {
    out => GrantedBy(out, t)
  }

  ghost function ClosedFor(t: TorrentId): Output -> multiset<SeedRequest> {
    out => ClosedBy(out, t)
  }

  lemma HandlerKeepsSeeds(h: Handler, e: D.Event)
    ensures D.Step(h, e).0.seeds == h.seeds
  {
  }

  lemma TakeLedger(s: Pool, u: TorrentId, i: nat, t: TorrentId)
    requires u in s.torrents && i < |s.torrents[u].handler.seeds|
    ensures var h := s.torrents[u].handler;
            Pending(s, t) == Pending(s.With(u, h.(seeds := RemoveAt(h.seeds, i))), t)
                           + if t == u then multiset{h.seeds[i]} else multiset{}
  {
    RemoveAtFacts(s.torrents[u].handler.seeds, i);
  }

  lemma SameSeeds(s: Pool, u: TorrentId, h: Handler, t: TorrentId)
    requires u in s.torrents && h.seeds == s.torrents[u].handler.seeds
    ensures Pending(s.With(u, h), t) == Pending(s, t)
  {
  }

  /** Events that are not about seeding leave the pending requests alone. */
  lemma OtherLedger(s: Pool, e: Event, t: TorrentId)
    requires Inv(s)
    requires !e.BlockRead? && !e.CancelRequest? && !e.PieceRequest?
    ensures Pending(Step(s, e).0, t) == Pending(s, t)
    ensures Step(s, e).1.Quiet? || Step(s, e).1.Added? || Step(s, e).1.Greeted?
  {
    hide D.Step, Pending;
    match e
    case Add(hash, strategy, bitfield, pl, lpl, state) =>
      AddLedger(s, hash, Init(strategy, bitfield, pl, lpl), state, t);
    case HandshakeRequest(p, hash, order) =>
      var u := s.FirstMatch(order, WithHash(hash));
      if u.Some? {
        SameSeeds(s, u.value, s.torrents[u.value].handler.InsertPeer(p, FRESH_PEER), t);
      }
    case HandshakeResponse(p, u, hash) =>
      if u in s.torrents {
        SameSeeds(s, u, s.torrents[u].handler.InsertPeer(p, FRESH_PEER), t);
      }
    case Disconnect(p, order) =>
      var u := s.FirstMatch(order, Tracking(p));
      if u.Some? {
        SameSeeds(s, u.value, s.torrents[u.value].handler.RemovePeer(p), t);
      }
    case ChokeByRemote(p, choked, order) =>
      var u := s.FirstMatch(order, Tracking(p));
      if u.Some? {
        SameSeeds(s, u.value, s.torrents[u.value].handler.SetRemoteChoke(p, choked), t);
      }
    case Drive(u, inner) =>
      if u in s.torrents {
        HandlerKeepsSeeds(s.torrents[u].handler, inner);
        SameSeeds(s, u, D.Step(s.torrents[u].handler, inner).0, t);
      }
  }

  lemma AddLedger(s: Pool, hash: Bytes, h: Handler, state: TorrentState, t: TorrentId)
    requires Inv(s) && h.seeds == []
    ensures Pending(s.AddTorrent(hash, h, state).0, t) == Pending(s, t)
  {
    assert s.nextId !in s.torrents;
  }

  lemma GrantLedger(s: Pool, u: TorrentId, r: SeedRequest, t: TorrentId)
    requires u in s.torrents
    ensures var h := s.torrents[u].handler;
            Pending(s.With(u, h.(seeds := h.seeds + [r])), t)
            == Pending(s, t) + if t == u then multiset{r} else multiset{}
  {
  }

  lemma StepLedger(s: Pool, e: Event, t: TorrentId)
    requires Inv(s)
    ensures var (s', out) := Step(s, e);
            if out.Granted? then Pending(s', t) == Pending(s, t) + GrantedBy(out, t)
            else if out.Served? || out.Cancelled? then Pending(s, t) == Pending(s', t) + ClosedBy(out, t)
            else Pending(s', t) == Pending(s, t)
  {
    hide D.Step, Inv, Pending, Handler.InsertPeer, Handler.RemovePeer, Handler.SetRemoteChoke, Pool.AddTorrent;
    match e
    case PieceRequest(r, order) =>
      var u := s.FirstMatch(order, Seeding(r.peer, r.block.pieceIndex));
      if u.Some? {
        GrantLedger(s, u.value, r, t);
      }
    case BlockRead(u, block) =>
      if u in s.torrents {
        var i := FirstSeed(s.torrents[u].handler.seeds, ForBlock(block));
        if i < |s.torrents[u].handler.seeds| {
          TakeLedger(s, u, i, t);
        }
      }
    case CancelRequest(id, order) =>
      var u := s.FirstMatch(order, Holding(id));
      if u.Some? {
        TakeLedger(s, u.value, FirstSeed(s.torrents[u.value].handler.seeds, WithId(id)), t);
      }
    case _ => OtherLedger(s, e, t);
  }

  lemma OneSided(out: Output, t: TorrentId)
    ensures !out.Granted? ==> GrantedBy(out, t) == multiset{}
    ensures !out.Served? && !out.Cancelled? ==> ClosedBy(out, t) == multiset{}
  {
  }

  /** The ledger balances over every admissible run, torrent by torrent: what was pending or has been
      accepted is pending, served or cancelled, each request exactly once. */
  lemma {:induction false} SeedingLedger(s: Pool, es: seq<Event>, t: TorrentId)
    requires Inv(s) && AdmissibleRun(s, es)
    ensures var (s', outs) := Run(s, es);
            Pending(s, t) + Sum(outs, GrantedFor(t)) == Pending(s', t) + Sum(outs, ClosedFor(t))
    decreases |es|
  {
    hide Step, Inv, Possible, Admissible, Pending, GrantedBy, ClosedBy;
    if es != [] {
      var (s', out) := Step(s, es[0]);
      StepExact(s, es[0]);
      StepLedger(s, es[0], t);
      SeedingLedger(s', es[1..], t);
      var outs := Run(s, es).1;
      assert outs[0] == out && outs[1..] == Run(s', es[1..]).1;
      assert Sum(outs, GrantedFor(t)) == GrantedBy(out, t) + Sum(outs[1..], GrantedFor(t));
      assert Sum(outs, ClosedFor(t)) == ClosedBy(out, t) + Sum(outs[1..], ClosedFor(t));
      OneSided(out, t);
      Balance(Pending(s, t), Pending(s', t), Pending(Run(s, es).0, t), GrantedBy(out, t), ClosedBy(out, t),
              Sum(outs[1..], GrantedFor(t)), Sum(outs[1..], ClosedFor(t)));
    }
  }

  /** From the empty pool: what has been accepted is pending, served or cancelled, and the pool is in order. */
  lemma LedgerFromEmpty(maxActive: nat, es: seq<Event>, t: TorrentId)
    requires AdmissibleRun(Pool(map[], 0, maxActive), es)
    ensures var (s, outs) := Run(Pool(map[], 0, maxActive), es);
            && Inv(s)
            && Sum(outs, GrantedFor(t)) == Pending(s, t) + Sum(outs, ClosedFor(t))
  {
    hide Inv, Run, AdmissibleRun, Sum;
    EmptyPoolIsFine(maxActive);
    InvariantOverRuns(Pool(map[], 0, maxActive), es);
    SeedingLedger(Pool(map[], 0, maxActive), es, t);
    assert Pending(Pool(map[], 0, maxActive), t) == multiset{};
  }

  /** Disconnecting a peer leaves every pending request where it is, those of the peer included. */
  lemma DisconnectKeepsRequests(s: Pool, p: PeerId, order: seq<TorrentId>, t: TorrentId)
    ensures Pending(s.RemovePeer(p, order), t) == Pending(s, t)
  {
    var u := s.FirstMatch(order, Tracking(p));
    if u.Some? {
      assert s.torrents[u.value].handler.RemovePeer(p).seeds == s.torrents[u.value].handler.seeds;
    }
  }

  /** A request outlives its peer: after the disconnect, whatever happens next, it is pending until it is served or
      cancelled, and until then the torrent accepts nothing from the peer, connected again or not. */
  lemma StaleRequest(s: Pool, order: seq<TorrentId>, es: seq<Event>, t: TorrentId, r: SeedRequest)
    requires Inv(s) && Enumerates(order, s) && r in Pending(s, t)
    requires AdmissibleRun(s.RemovePeer(r.peer, order), es)
    requires forall out :: out in Run(s.RemovePeer(r.peer, order), es).1 ==>
               out != Served(t, r) && out != Cancelled(t, r)
    ensures var last := Run(s.RemovePeer(r.peer, order), es).0;
            r in Pending(last, t) && forall piece :: !last.Matches(t, Seeding(r.peer, piece))
  {
    hide Inv, Run, AdmissibleRun, Sum;
    var s' := s.RemovePeer(r.peer, order);
    DisconnectKeeps(s, r.peer, order);
    DisconnectKeepsRequests(s, r.peer, order, t);
    SeedingLedger(s', es, t);
    var (last, outs) := Run(s', es);
    forall out | out in outs
      ensures ClosedFor(t)(out)[r] == 0
    {
      assert out != Served(t, r) && out != Cancelled(t, r);
    }
    SumZero(outs, ClosedFor(t), r);
    assert (Pending(s', t) + Sum(outs, GrantedFor(t)))[r] == (Pending(last, t) + Sum(outs, ClosedFor(t)))[r];
  }

  /** The torrent tracks the peer of the request, owns the piece, does not choke the peer, the peer is interested, and
      no request of it is pending. */
  ghost predicate MayServe(s: Pool, t: TorrentId, r: SeedRequest) {
    && t in s.torrents
    && var h := s.torrents[t].handler;
       && r.peer in h.peers && !h.peers[r.peer].clientChoked && h.peers[r.peer].remoteInterested
       && r.block.pieceIndex < |h.bitfield| && h.bitfield[r.block.pieceIndex]
       && forall x :: x in h.seeds ==> x.peer != r.peer
  }

  /** A request is accepted if and only if some torrent may serve it; it then waits behind the earlier requests of that
      torrent, and nothing else changes. */
  lemma RequestExact(s: Pool, r: SeedRequest, order: seq<TorrentId>)
    requires Inv(s) && Enumerates(order, s)
    ensures var (s', t) := s.OnPieceRequest(r, order);
            && (t.Some? <==> exists u :: MayServe(s, u, r))
            && (t.None? ==> s' == s)
            && (t.Some? ==> MayServe(s, t.value, r)
                            && var h := s.torrents[t.value].handler;
                               s' == s.With(t.value, h.(seeds := h.seeds + [r])))
  {
    hide Inv;
    var q := Seeding(r.peer, r.block.pieceIndex);
    forall u
      ensures s.Matches(u, q) <==> MayServe(s, u, r)
      ensures s.Matches(u, q) ==> u in order
    {
    }
    hide MayServe, Pool.Matches;
  }

  /** A block that has been read goes to the earliest waiting request for exactly that block, and the
      piece it belongs to is owned; it goes nowhere only if nobody waits for it. */
  lemma ServesEarliest(s: Pool, t: TorrentId, block: BlockMetadata)
    requires Inv(s) && t in s.torrents
    ensures var seeds := s.torrents[t].handler.seeds;
            var (s', r) := s.OnBlockRead(t, block);
            && (r.None? <==> forall x :: x in seeds ==> x.block != block)
            && (r.Some? ==>
                  && r.value.block == block
                  && s.torrents[t].handler.bitfield[block.pieceIndex]
                  && exists i :: 0 <= i < |seeds| && seeds[i] == r.value
                       && (forall j :: 0 <= j < i ==> seeds[j].block != block)
                       && s'.torrents[t].handler.seeds == RemoveAt(seeds, i))
  {
    var seeds := s.torrents[t].handler.seeds;
    var i := FirstSeed(seeds, ForBlock(block));
    if i < |seeds| {
      assert seeds[i] in seeds;
      assert forall j :: 0 <= j < i ==> !Fits(seeds[j], ForBlock(block));
    } else {
      forall x | x in seeds
        ensures x.block != block
      {
        var j :| 0 <= j < |seeds| && seeds[j] == x;
        assert !Fits(seeds[j], ForBlock(block));
      }
    }
  }
}
