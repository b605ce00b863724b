/** What the pool answers and whom it tracks, told from the fields of its torrents (src/peer/torrent.rs). */
module PoolAnswers {
  import opened Collections
  import opened Messages
  import opened Blocks
  import opened PieceBuffers
  import opened PieceHandlers
  import opened Pools
  import opened PoolRuns

  /** The records of the peers that a torrent tracks. */
  function Records(s: Pool, t: TorrentId): map<PeerId, Peer> {
    if t in s.torrents then s.torrents[t].handler.peers else map[]
  }

  predicate HasHash(s: Pool, t: TorrentId, hash: Bytes) {
    t in s.torrents && s.torrents[t].infoHash == hash
  }

  /** A peer of which nothing is known yet: no bit field, choked and not interested on both sides. */
  predicate Newcomer(peer: Peer) {
    && peer.bitfield.None?
    && peer.remoteChoked && peer.clientChoked && !peer.remoteInterested && !peer.clientInterested
  }

  /** The pools differ at most in the records of peer `p`, and torrents keep everything else. */
  ghost predicate OnlyRecordsOf(s: Pool, s': Pool, p: PeerId) {
    && s'.torrents.Keys == s.torrents.Keys && s'.nextId == s.nextId && s'.maxActive == s.maxActive
    && (forall t :: t in s.torrents ==>
          && s'.torrents[t].infoHash == s.torrents[t].infoHash && s'.torrents[t].state == s.torrents[t].state
          && var h, h' := s.torrents[t].handler, s'.torrents[t].handler;
             h'.(peers := h.peers, buffer := h.buffer) == h && h'.peers - {p} == h.peers - {p})
  }

  // ---------------------------------------------------------------- handshakes

  /** The answer to a handshake request: the peer is welcome if and only if no torrent tracks it and one has the hash,
      and then exactly that one tracks it, as a newcomer. */
  ghost predicate RequestRight(s: Pool, p: PeerId, hash: Bytes, s': Pool, r: HandshakeResult) {
    && (r.InvalidPeer? <==> exists t :: p in Records(s, t))
    && (r.Welcome? <==> !(exists t :: p in Records(s, t)) && exists t :: HasHash(s, t, hash))
    && (!r.Welcome? ==> s' == s)
    && (r.Welcome? ==>
          && OnlyRecordsOf(s, s', p)
          && (forall t :: p in Records(s', t) <==> HasHash(s, t, hash))
          && (forall t :: p in Records(s', t) ==> Newcomer(Records(s', t)[p])
                                                  && s'.torrents[t].handler.buffer == s.torrents[t].handler.buffer))
  }

  lemma Arrival(s: Pool, t: TorrentId, p: PeerId)
    requires t in s.torrents
    ensures var s' := s.With(t, s.torrents[t].handler.InsertPeer(p, FRESH_PEER));
            && OnlyRecordsOf(s, s', p)
            && p in Records(s', t) && Newcomer(Records(s', t)[p])
            && s'.torrents[t].handler.buffer == s.torrents[t].handler.buffer
            && forall u :: u != t ==> Records(s', u) == Records(s, u)
  {
    var h := s.torrents[t].handler;
    assert h.InsertPeer(p, FRESH_PEER) == h.(peers := h.peers[p := FRESH_PEER]);
    assert h.peers[p := FRESH_PEER] - {p} == h.peers - {p};
  }

  lemma HashIsFound(s: Pool, hash: Bytes, order: seq<TorrentId>)
    requires Inv(s) && Enumerates(order, s)
    ensures var t := s.FirstMatch(order, WithHash(hash));
            if t.None? then forall u :: !HasHash(s, u, hash)
            else t.value in s.torrents && forall u :: HasHash(s, u, hash) <==> u == t.value
  {
    hide HandlerFine;
    forall u
      ensures s.Matches(u, WithHash(hash)) <==> HasHash(s, u, hash)
      ensures HasHash(s, u, hash) ==> u in order
    {
    }
  }

  lemma AssociatedExact(s: Pool, p: PeerId)
    ensures s.IsAssociated(p) <==> exists t :: p in Records(s, t)
  {
    if t :| p in Records(s, t) {
      assert s.Tracks(t, p);
    }
    if s.IsAssociated(p) {
      var t :| t in s.torrents && s.Tracks(t, p);
      assert p in Records(s, t);
    }
  }

  lemma HandshakeRequestExact(s: Pool, p: PeerId, hash: Bytes, order: seq<TorrentId>)
    requires Inv(s) && Enumerates(order, s)
    ensures var (s', r) := s.OnHandshakeRequest(p, hash, order); RequestRight(s, p, hash, s', r)
  {
    hide Inv, Pool.Matches, Pool.Tracks, Pool.IsAssociated, HasHash, Records, OnlyRecordsOf, Newcomer,
      Handler.InsertPeer;
    AssociatedExact(s, p);
    HashIsFound(s, hash, order);
    var t := s.FirstMatch(order, WithHash(hash));
    if t.Some? {
      Arrival(s, t.value, p);
      var (s', r) := s.OnHandshakeRequest(p, hash, order);
      RecordsExist(s', p);
      assert HasHash(s, t.value, hash);
      if r.Welcome? {
        forall u
          ensures p in Records(s', u) <==> u == t.value
        {
          assert p !in Records(s, u);
        }
      }
    }
  }

  lemma RecordsExist(s: Pool, p: PeerId)
    ensures forall t :: p in Records(s, t) ==> t in s.torrents
  {
  }

  /** The answer to a handshake response: the named torrent begins to track the peer if and only if it exists and has
      the hash. */
  ghost predicate ResponseRight(s: Pool, p: PeerId, t: TorrentId, hash: Bytes, s': Pool, r: HandshakeResult) {
    && (r.InvalidPeer? <==> t !in s.torrents)
    && (r.Welcome? <==> HasHash(s, t, hash))
    && (!r.Welcome? ==> s' == s)
    && (r.Welcome? ==>
          && OnlyRecordsOf(s, s', p)
          && p in Records(s', t) && Newcomer(Records(s', t)[p])
          && s'.torrents[t].handler.buffer == s.torrents[t].handler.buffer
          && forall u :: u != t ==> Records(s', u) == Records(s, u))
  }

  lemma HandshakeResponseExactly(s: Pool, p: PeerId, t: TorrentId, hash: Bytes)
    ensures var (s', r) := s.OnHandshakeResponse(p, t, hash); ResponseRight(s, p, t, hash, s', r)
  {
    if t in s.torrents {
      Arrival(s, t, p);
      hide OnlyRecordsOf, Newcomer, Handler.InsertPeer;
    }
  }

  // ---------------------------------------------------------------- peers that go, choke and unchoke

  /** The scan for a peer finds the one torrent that tracks it. */
  lemma PeerIsFound(s: Pool, p: PeerId, order: seq<TorrentId>)
    requires Inv(s) && Enumerates(order, s)
    ensures var t := s.FirstMatch(order, Tracking(p));
            if t.None? then forall u :: p !in Records(s, u)
            else t.value in s.torrents && forall u :: p in Records(s, u) <==> u == t.value
  {
    hide HandlerFine;
    forall u
      ensures s.Matches(u, Tracking(p)) <==> p in Records(s, u)
      ensures s.Tracks(u, p) <==> p in Records(s, u)
      ensures p in Records(s, u) ==> u in order
    {
    }
  }

  /** Replacing the handler of a torrent by one that differs in the records of the peer and in the buffer. */
  lemma NewRecords(s: Pool, t: TorrentId, h': Handler, p: PeerId)
    requires t in s.torrents
    requires var h := s.torrents[t].handler;
             h'.(peers := h.peers, buffer := h.buffer) == h && h'.peers - {p} == h.peers - {p}
    ensures OnlyRecordsOf(s, s.With(t, h'), p)
    ensures Records(s.With(t, h'), t) == h'.peers && forall u :: u != t ==> Records(s.With(t, h'), u) == Records(s, u)
  {
  }

  /** The scheduler of every torrent that tracks the peer gets the event. */
  ghost predicate Passed(s: Pool, p: PeerId, e: D.Event, s': Pool) {
    forall t :: p in Records(s, t) ==>
      t in s'.torrents && s'.torrents[t].handler == D.Step(s.torrents[t].handler, e).0
  }

  /** A disconnect takes the peer, and no other, out of whichever torrent tracks it. */
  ghost predicate GoneRight(s: Pool, p: PeerId, s': Pool) {
    && OnlyRecordsOf(s, s', p) && Passed(s, p, D.DropPeer(p), s')
    && forall t :: Records(s', t) == Records(s, t) - {p}
  }

  lemma DisconnectExact(s: Pool, p: PeerId, order: seq<TorrentId>)
    requires Inv(s) && Enumerates(order, s)
    ensures GoneRight(s, p, s.RemovePeer(p, order))
  {
    hide Inv, Pool.Matches, D.Step, Enumerates;
    PeerIsFound(s, p, order);
    var t := s.FirstMatch(order, Tracking(p));
    if t.Some? {
      var h := s.torrents[t.value].handler;
      assert Records(s, t.value) == h.peers;
      RemovedRecords(h, p);
      NewRecords(s, t.value, h.RemovePeer(p), p);
      DropIs(h, p);
      hide Handler.RemovePeer, Records, OnlyRecordsOf;
      forall u
        ensures Records(s.RemovePeer(p, order), u) == Records(s, u) - {p}
      {
        assert u != t.value ==> p !in Records(s, u);
      }
    }
  }

  lemma DropIs(h: Handler, p: PeerId)
    ensures D.Step(h, D.DropPeer(p)).0 == h.RemovePeer(p)
  {
  }

  lemma ChokeIs(h: Handler, p: PeerId, choked: bool)
    ensures D.Step(h, D.RemoteChoke(p, choked)).0 == h.SetRemoteChoke(p, choked)
  {
  }

  lemma RemovedRecords(h: Handler, p: PeerId)
    ensures var h' := h.RemovePeer(p);
            h'.(peers := h.peers, buffer := h.buffer) == h && h'.peers == h.peers - {p}
  {
    hide Buffer.RemovePeer;
  }

  lemma ChokedRecords(h: Handler, p: PeerId, choked: bool)
    requires p in h.peers
    ensures var h' := h.SetRemoteChoke(p, choked);
            && h'.(peers := h.peers, buffer := h.buffer) == h && h'.peers - {p} == h.peers - {p}
            && h'.peers == h.peers[p := h.peers[p].(remoteChoked := choked)]
  {
    hide Buffer.RemovePeer;
  }

  /** A choke or unchoke is recorded for the peer where it is tracked, and nowhere else. */
  ghost predicate ChokeRight(s: Pool, p: PeerId, choked: bool, s': Pool) {
    && OnlyRecordsOf(s, s', p) && Passed(s, p, D.RemoteChoke(p, choked), s')
    && forall t ::
         Records(s', t) == if p !in Records(s, t) then Records(s, t)
                           else Records(s, t)[p := Records(s, t)[p].(remoteChoked := choked)]
  }

  lemma ChokeExactly(s: Pool, p: PeerId, choked: bool, order: seq<TorrentId>)
    requires Inv(s) && Enumerates(order, s)
    ensures ChokeRight(s, p, choked, s.OnChokeByRemote(p, choked, order))
  {
    hide Inv, Pool.Matches, D.Step, Enumerates;
    PeerIsFound(s, p, order);
    var t := s.FirstMatch(order, Tracking(p));
    if t.Some? {
      var h := s.torrents[t.value].handler;
      assert Records(s, t.value) == h.peers;
      ChokedRecords(h, p, choked);
      NewRecords(s, t.value, h.SetRemoteChoke(p, choked), p);
      ChokeIs(h, p, choked);
      hide Handler.SetRemoteChoke, Records, OnlyRecordsOf;
    }
  }

  // ---------------------------------------------------------------- torrents and requests

  /** A torrent is refused if and only if its hash is known; otherwise it is filed under the next identifier, with a
      handler that has done nothing yet. */
  ghost predicate AddRight(s: Pool, e: Event, s': Pool, out: Output)
    requires e.Add?
  {
    if exists t :: HasHash(s, t, e.hash) then s' == s && out == Quiet
    else
      && out == Added(s.nextId, if e.state.Active? && s.maxActive <= |s.ActiveIds()| then Paused else e.state)
      && s'.nextId == s.nextId + 1 && s'.maxActive == s.maxActive
      && s'.torrents.Keys == s.torrents.Keys + {s.nextId}
      && (forall t :: t in s.torrents && t != s.nextId ==> s'.torrents[t] == s.torrents[t])
      && var added := s'.torrents[s.nextId];
         && added.infoHash == e.hash && added.state == e.state
         && var h := added.handler;
            && h.peers == map[] && h.seeds == [] && h.buffer.None? && h.bitfield == e.bitfield
            && h.strategy == e.strategy && h.pieceLength == e.pieceLength && h.lastPieceLength == e.lastPieceLength
            && (h.finished <==> forall i :: 0 <= i < |e.bitfield| ==> e.bitfield[i])
  }

  lemma AddExact(s: Pool, e: Event)
    requires e.Add?
    ensures AddRight(s, e, Step(s, e).0, Step(s, e).1)
  {
    assert forall t :: s.Matches(t, WithHash(e.hash)) <==> HasHash(s, t, e.hash);
  }

  /** A request is granted if and only if some torrent may serve it. */
  ghost predicate GrantRight(s: Pool, r: SeedRequest, s': Pool, out: Output) {
    && (out.Granted? <==> exists t :: MayServe(s, t, r))
    && (!out.Granted? ==> s' == s && out == Quiet)
    && (out.Granted? ==>
          && out.request == r && MayServe(s, out.torrent, r)
          && var h := s.torrents[out.torrent].handler;
             s' == s.With(out.torrent, h.(seeds := h.seeds + [r])))
  }

  lemma GrantExact(s: Pool, r: SeedRequest, order: seq<TorrentId>)
    requires Inv(s) && Enumerates(order, s)
    ensures var (s', out) := Step(s, PieceRequest(r, order)); GrantRight(s, r, s', out)
  {
    hide Inv, Pool.OnPieceRequest, MayServe;
    RequestExact(s, r, order);
    var t := s.OnPieceRequest(r, order).1;
    if t.Some? {
      assert MayServe(s, t.value, r);
    }
  }

  /** Position `i` of the pending requests is the first that fits. */
  predicate FirstFit(seeds: seq<SeedRequest>, q: SeedQuery, i: nat) {
    i < |seeds| && Fits(seeds[i], q) && forall j :: 0 <= j < i ==> !Fits(seeds[j], q)
  }

  /** The request is the first of the torrent that fits, and it alone goes. */
  ghost predicate TakenRight(s: Pool, t: TorrentId, q: SeedQuery, s': Pool, r: SeedRequest) {
    && t in s.torrents
    && var h := s.torrents[t].handler;
       exists i: nat :: FirstFit(h.seeds, q, i) && h.seeds[i] == r && s' == s.With(t, h.(seeds := RemoveAt(h.seeds, i)))
  }

  /** Some pending request of the torrent is for exactly the block, or has the identifier. */
  ghost predicate Waits(s: Pool, t: TorrentId, q: SeedQuery) {
    t in s.torrents && exists r :: r in s.torrents[t].handler.seeds && Fits(r, q)
  }

  lemma FirstSeedExact(seeds: seq<SeedRequest>, q: SeedQuery)
    ensures var i := FirstSeed(seeds, q);
            if i < |seeds| then FirstFit(seeds, q, i) && seeds[i] in seeds else forall r :: r in seeds ==> !Fits(r, q)
  {
    var i := FirstSeed(seeds, q);
    if i == |seeds| {
      forall r | r in seeds
        ensures !Fits(r, q)
      {
        var j :| 0 <= j < |seeds| && seeds[j] == r;
      }
    }
  }

  ghost predicate ServeRight(s: Pool, t: TorrentId, block: BlockMetadata, s': Pool, out: Output) {
    if Waits(s, t, ForBlock(block))
    then out.Served? && out.torrent == t && TakenRight(s, t, ForBlock(block), s', out.request)
    else s' == s && out == Quiet
  }

  lemma ServeExact(s: Pool, t: TorrentId, block: BlockMetadata)
    ensures var (s', out) := Step(s, BlockRead(t, block)); ServeRight(s, t, block, s', out)
  {
    if t in s.torrents {
      FirstSeedExact(s.torrents[t].handler.seeds, ForBlock(block));
      hide Fits;
    }
  }

  ghost predicate CancelRight(s: Pool, id: nat, s': Pool, out: Output) {
    if exists t :: Waits(s, t, WithId(id))
    then out.Cancelled? && TakenRight(s, out.torrent, WithId(id), s', out.request)
    else s' == s && out == Quiet
  }

  lemma CancelExact(s: Pool, id: nat, order: seq<TorrentId>)
    requires Enumerates(order, s)
    ensures var (s', out) := Step(s, CancelRequest(id, order)); CancelRight(s, id, s', out)
  {
    forall t
      ensures s.Matches(t, Holding(id)) <==> Waits(s, t, WithId(id))
      ensures Waits(s, t, WithId(id)) ==> t in order
    {
      if s.Matches(t, Holding(id)) {
        var r :| r in s.torrents[t].handler.seeds && r.requestId == id;
        assert Fits(r, WithId(id));
      }
    }
    var t := s.FirstMatch(order, Holding(id));
    if t.Some? {
      FirstSeedExact(s.torrents[t.value].handler.seeds, WithId(id));
    }
    hide Fits, Pool.Matches;
  }

  // ---------------------------------------------------------------- over runs

  /** The answer and the new pool are right for the event. */
  ghost predicate StepRight(s: Pool, e: Event, s': Pool, out: Output) {
    match e
    case Add(_, _, _, _, _, _) => AddRight(s, e, s', out)
    case HandshakeRequest(p, hash, _) => out.Greeted? && RequestRight(s, p, hash, s', out.result)
    case HandshakeResponse(p, t, hash) => out.Greeted? && ResponseRight(s, p, t, hash, s', out.result)
    case Disconnect(p, _) => GoneRight(s, p, s')
    case ChokeByRemote(p, choked, _) => ChokeRight(s, p, choked, s')
    case PieceRequest(r, _) => GrantRight(s, r, s', out)
    case BlockRead(t, block) => ServeRight(s, t, block, s', out)
    case CancelRequest(id, _) => CancelRight(s, id, s', out)
    case Drive(t, inner) =>
      s' == if t in s.torrents then s.With(t, D.Step(s.torrents[t].handler, inner).0) else s
  }

  lemma StepIsRight(s: Pool, e: Event)
    requires Inv(s) && Possible(s, e)
    ensures var (s', out) := Step(s, e); StepRight(s, e, s', out)
  {
    hide Inv, AddRight, RequestRight, ResponseRight, GoneRight, ChokeRight, ServeRight, CancelRight, GrantRight,
      Pool.OnHandshakeRequest, Pool.OnHandshakeResponse, Pool.RemovePeer, Pool.OnChokeByRemote;
    match e
    case Add(_, _, _, _, _, _) => hide Step; AddExact(s, e);
    case HandshakeRequest(p, hash, order) => HandshakeRequestExact(s, p, hash, order);
    case HandshakeResponse(p, t, hash) => HandshakeResponseExactly(s, p, t, hash);
    case Disconnect(p, order) => DisconnectExact(s, p, order);
    case ChokeByRemote(p, choked, order) => ChokeExactly(s, p, choked, order);
    case PieceRequest(r, order) => hide Step; GrantExact(s, r, order);
    case BlockRead(t, block) => hide Step; ServeExact(s, t, block);
    case CancelRequest(id, order) => hide Step; CancelExact(s, id, order);
    case Drive(_, _) => hide D.Step;
  }

  lemma {:induction false} RunPrefix(s: Pool, es: seq<Event>, i: nat)
    requires AdmissibleRun(s, es) && i < |es|
    ensures AdmissibleRun(s, es[..i]) && Possible(Run(s, es[..i]).0, es[i])
    ensures (Run(s, es[..i + 1]).0, Run(s, es).1[i]) == Step(Run(s, es[..i]).0, es[i])
    decreases |es|
  {
    hide Step, Possible, Admissible;
    if i == 0 {
      assert es[..0] == [] && es[..1] == [es[0]] && [es[0]][1..] == [];
    } else {
      RunPrefix(Step(s, es[0]).0, es[1..], i - 1);
      assert es[1..][..i - 1] == es[..i][1..] && es[1..][..i] == es[..i + 1][1..];
    }
  }

  /** In every admissible run of a new pool, every call is answered as it should be, and has the effect it should
      have. */
  lemma AnswersOverRuns(maxActive: nat, es: seq<Event>, i: nat)
    requires AdmissibleRun(Pool(map[], 0, maxActive), es) && i < |es|
    ensures var s := Pool(map[], 0, maxActive);
            StepRight(Run(s, es[..i]).0, es[i], Run(s, es[..i + 1]).0, Run(s, es).1[i])
  {
    hide Inv, Run, AdmissibleRun, Step, StepRight, Possible;
    var s := Pool(map[], 0, maxActive);
    EmptyPoolIsFine(maxActive);
    RunPrefix(s, es, i);
    InvariantOverRuns(s, es[..i]);
    StepIsRight(Run(s, es[..i]).0, es[i]);
  }
}
