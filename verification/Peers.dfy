/** A whole peer: its disk manager driven by its schedulers. Nothing is asked of the other peers, and of the requests
    only that they come from the schedulers of the torrents that were added (src/peer/piece.rs, src/disk/manager.rs). */
module Peers {
  import opened Collections
  import opened Messages
  import opened Blocks
  import opened DiskFiles
  import opened DiskJobs
  import opened DiskManagers
  import opened DiskRuns
  import opened Provenance
  import opened Exclusivity
  import opened Tracks
  import opened WrittenLog
  import opened DiskHistories
  import opened WholeWrites
  import opened Swarm
  import Builder
  import D = Downloads
  import H = PieceHandlers
  import L = Layout

  /** The torrents of the peer, under their identifiers. */
  type Catalogue = map<TorrentId, L.Torrent>

  ghost predicate AllValid(ts: Catalogue) {
    forall id :: id in ts ==> ts[id].Valid()
  }

  /** The hash does not collide on any piece of the catalogue. */
  ghost predicate NoForgery(ts: Catalogue, sha: Bytes -> Digest)
    requires AllValid(ts)
  {
    forall id, i :: id in ts && 0 <= i < ts[id].PieceCount() ==> CollisionFree(sha, Chunk(ts[id], i))
  }

  // ---------------------------------------------------------------- what the peer asks of its disk

  /** The torrent as the manager keeps it: one file, and the hashes that the builder computes. */
  function FileOf(id: TorrentId, t: L.Torrent, sha: Bytes -> Digest): TorrentFile
    requires t.pieceLength > 0
  {
    TorrentFile(id, Digests(Builder.HashAll(Builder.Chunks(t.content, t.pieceLength)), sha), t.pieceLength,
                Entries(id, [|t.content|], 0, 0))
  }

  /** Output `k` of an admissible run of a scheduler of the torrent reports the piece. */
  ghost predicate ReportedAt(t: L.Torrent, piece: Block, h: H.Handler, es: seq<D.Event>, k: nat) {
    && For(h, t) && D.Inv(h) && h.buffer.None? && D.AdmissibleRun(h, es)
    && k < |es| && D.IsPiece(D.Run(h, es).1[k]) && D.Run(h, es).1[k].state.piece.value == piece
  }

  ghost predicate Scheduled(t: L.Torrent, piece: Block) {
    exists h, es, k :: ReportedAt(t, piece, h, es, k)
  }

  lemma ScheduledIsWhole(t: L.Torrent, piece: Block)
    requires t.Valid() && Scheduled(t, piece)
    ensures WholePiece(t, piece.metadata) && Whole(piece)
  {
    hide D.Run, D.AdmissibleRun, D.Inv, For;
    var h, es, k :| ReportedAt(t, piece, h, es, k);
    AssembledIsWhole(t, h, es, k);
  }

  /** Torrents that are added are those of the catalogue, and what is to be written are pieces that their schedulers
      have reported. Blocks may be asked for freely. */
  ghost predicate Ordinary(ts: Catalogue, sha: Bytes -> Digest, m: Message)
    requires AllValid(ts)
  {
    && (m.AddTorrent? ==> m.torrent.id in ts && m.torrent == FileOf(m.torrent.id, ts[m.torrent.id], sha))
    && (m.Submit? && m.request.WriteRequest? ==>
          && m.request.torrent in ts && Scheduled(ts[m.request.torrent], m.request.block)
          && |m.request.block.data| < VEC_LIMIT)
  }

  /** Everything the manager knows or has to do comes from the catalogue. */
  ghost predicate Ours(ts: Catalogue, d: Disk)
    requires AllValid(ts)
  {
    && (forall id :: id in d.torrents ==> id in ts && d.torrents[id] == FileOf(id, ts[id], d.sha))
    && (forall m :: m in d.queue ==> Ordinary(ts, d.sha, m))
  }

  lemma StepKeepsOurs(ts: Catalogue, d: Disk, e: Event)
    requires AllValid(ts) && Ours(ts, d) && (e.Enqueue? ==> Ordinary(ts, d.sha, e.message))
    ensures Ours(ts, Step(d, e).0)
  {
    hide Disk.PollJob, Disk.Start, Ordinary, AllValid;
    match e
    case Enqueue(m) =>
      assert forall x :: x in d.queue + [m] <==> x in d.queue || x == m;
    case PollJob(k, ios) =>
      if k < |d.active| {
        PollShape(d, k, ios);
      }
    case Pop(opens) =>
      if d.queue != [] {
        var rest := d.(queue := d.queue[1..]);
        assert d.queue[0] in d.queue;
        assert forall x :: x in rest.queue ==> x in d.queue;
        if d.queue[0].Submit? {
          StartShape(rest, d.queue[0].request, opens);
        } else if d.queue[0].AddTorrent? {
          AddedIsOurs(ts, d.sha, d.queue[0]);
        }
      }
  }

  lemma AddedIsOurs(ts: Catalogue, sha: Bytes -> Digest, m: Message)
    requires AllValid(ts) && Ordinary(ts, sha, m) && m.AddTorrent?
    ensures m.torrent.id in ts && m.torrent == FileOf(m.torrent.id, ts[m.torrent.id], sha)
  {
  }

  // ---------------------------------------------------------------- what follows for the manager

  lemma OursIsKnown(ts: Catalogue, d: Disk, id: TorrentId)
    requires AllValid(ts) && Ours(ts, d) && id in d.torrents
    ensures id in ts && KnowsSingle(d, id, ts[id])
  {
  }

  lemma FileIsLaid(id: TorrentId, t: L.Torrent, sha: Bytes -> Digest)
    requires t.Valid()
    ensures WellLaid(FileOf(id, t, sha)) && Grounded(FileOf(id, t, sha)) && Uses(FileOf(id, t, sha), {FileId(id, 0)})
  {
    var file := FileOf(id, t, sha);
    NewIsWellLaid(file, [|t.content|]);
    NewIsGrounded(file, [|t.content|]);
    assert [|t.content|][1..] == [];
    var entry := FileEntry(FileId(id, 0), 0, |t.content|);
    assert Entries(id, [|t.content|], 0, 0) == [entry] + Entries(id, [], 1, |t.content|);
  }

  /** Requests of the schedulers are for whole pieces in one file. */
  lemma SchedulerWritesWhole(ts: Catalogue, d: Disk)
    requires AllValid(ts) && Ours(ts, d) && NoForgery(ts, d.sha)
    ensures HeadWhole(d)
  {
    hide Scheduled, CollisionFree, Placed, KnowsSingle, Whole, NoCollision;
    if d.queue != [] && d.queue[0].Submit? && d.queue[0].request.WriteRequest?
       && d.IsGoodPiece(d.queue[0].request.torrent, d.queue[0].request.block) {
      var r := d.queue[0].request;
      var t, i := ts[r.torrent], r.block.metadata.pieceIndex;
      assert Ordinary(ts, d.sha, d.queue[0]);
      ScheduledIsWhole(t, r.block);
      OursIsKnown(ts, d, r.torrent);
      PieceIsPlaced(t, d, r.torrent, i);
      PieceNeverCollides(t, d, r.torrent, i);
    }
  }

  lemma PieceNeverCollides(t: L.Torrent, d: Disk, id: TorrentId, i: nat)
    requires KnowsSingle(d, id, t) && i < t.PieceCount() && CollisionFree(d.sha, Chunk(t, i))
    ensures i < |d.torrents[id].pieces| && NoCollision(d, id, i)
  {
    HashAllAt(Builder.Chunks(t.content, t.pieceLength), i);
  }

  /** A handle for the file of every torrent. */
  ghost function Slots(ts: Catalogue): set<FileId> {
    set id | id in ts :: FileId(id, 0)
  }

  lemma OrdinaryIsPossible(ts: Catalogue, sha: Bytes -> Digest, e: Event)
    requires AllValid(ts) && (e.Enqueue? ==> Ordinary(ts, sha, e.message))
    ensures ConfinedEvent(e, Slots(ts))
    ensures e.Enqueue? && e.message.AddTorrent? ==> Grounded(e.message.torrent)
  {
    hide Scheduled, WellLaid, Grounded, Entries;
    if e.Enqueue? && e.message.AddTorrent? {
      var id := e.message.torrent.id;
      FileIsLaid(id, ts[id], sha);
    }
  }

  // ---------------------------------------------------------------- runs

  ghost predicate PeerInv(ts: Catalogue, s: Sys)
    requires AllValid(ts)
  {
    SysInv(s) && Orderly(s) && Ours(ts, s.disk) && Confined(s.disk, Slots(ts))
  }

  /** A step of the peer: an ordinary request, or the disk at work with no transfer astray. */
  ghost predicate PeerStep(ts: Catalogue, d: Disk, e: Event)
    requires AllValid(ts)
  {
    && (e.Enqueue? ==> Ordinary(ts, d.sha, e.message))
    && (e.PollJob? && e.k < |d.active| ==> SmoothJob(d, d.active[e.k], e.ios))
  }

  lemma StepIsCareful(ts: Catalogue, s: Sys, e: Event)
    requires AllValid(ts) && NoForgery(ts, s.disk.sha) && PeerInv(ts, s) && PeerStep(ts, s.disk, e)
    ensures Careful(s.disk, e)
  {
    hide SysInv, Orderly, Ours, Confined, HeadWhole, SmoothJob, Roomy, Ordinary, NoForgery, AllValid;
    SysTorrents(s);
    OrdinaryIsPossible(ts, s.disk.sha, e);
    ConfinedIsRoomy(s.disk, e, Slots(ts));
    SchedulerWritesWhole(ts, s.disk);
  }

  lemma StepKeepsPeer(ts: Catalogue, s: Sys, e: Event)
    requires AllValid(ts) && NoForgery(ts, s.disk.sha) && PeerInv(ts, s) && PeerStep(ts, s.disk, e)
    ensures PeerInv(ts, Next(s, e).0) && Next(s, e).0.disk.sha == s.disk.sha
  {
    hide SysInv, Orderly, Ours, Confined, Careful, Step, Ordinary, NoForgery, AllValid, SmoothJob;
    StepIsCareful(ts, s, e);
    CarefulKeeps(s, e);
    StepKeepsOurs(ts, s.disk, e);
    StepGrows(s.disk, e);
    OrdinaryIsPossible(ts, s.disk.sha, e);
    SysIsInv(s);
    StepConfined(s.disk, e, Slots(ts));
  }

  lemma SysIsInv(s: Sys)
    requires SysInv(s)
    ensures Inv(s.disk)
  {
    hide Exclusive, PartsFine, JobSound, JobClear, LogHolds, TorrentsOk;
  }

  ghost predicate PeerRun(ts: Catalogue, d: Disk, es: seq<Event>)
    requires AllValid(ts)
  {
    forall i :: 0 <= i < |es| ==> PeerStep(ts, StateAt(d, es, i), es[i])
  }

  lemma NewPeer(ts: Catalogue, capacity: nat, files: Files, sha: Bytes -> Digest)
    requires AllValid(ts) && |Slots(ts)| <= capacity
    ensures PeerInv(ts, Initial(capacity, files, sha))
  {
    InitialIsFine(capacity, files, sha);
    InitialIsOrderly(capacity, files, sha);
    hide SysInv, Orderly;
  }

  lemma {:induction false} PeerOverRuns(ts: Catalogue, s: Sys, es: seq<Event>, i: nat)
    requires AllValid(ts) && NoForgery(ts, s.disk.sha) && PeerInv(ts, s) && PeerRun(ts, s.disk, es) && i <= |es|
    ensures PeerInv(ts, Before(s, es, i)) && Before(s, es, i).disk.sha == s.disk.sha
  {
    hide PeerInv, PeerStep, Next, Run, Reports, NoForgery, AllValid;
    if i == 0 {
      BeforeFirst(s, es);
    } else {
      PeerOverRuns(ts, s, es, i - 1);
      BeforeNext(s, es, i - 1);
      StepKeepsPeer(ts, Before(s, es, i - 1), es[i - 1]);
    }
  }

  /** What a peer runs with: valid torrents, a hash without collisions on their pieces, and a cache with a slot for the
      file of each. */
  ghost predicate Equipped(ts: Catalogue, capacity: nat, sha: Bytes -> Digest) {
    AllValid(ts) && NoForgery(ts, sha) && |Slots(ts)| <= capacity
  }

  /** The requests of the schedulers meet every condition of the disk manager. */
  lemma PeerRunIsCareful(ts: Catalogue, capacity: nat, files: Files, sha: Bytes -> Digest, es: seq<Event>)
    requires Equipped(ts, capacity, sha) && PeerRun(ts, NewDisk(capacity, files, sha), es)
    ensures CarefulRun(NewDisk(capacity, files, sha), es)
  {
    hide PeerInv, PeerStep, Careful, Run, Reports, NoForgery, AllValid;
    var s := Initial(capacity, files, sha);
    NewPeer(ts, capacity, files, sha);
    forall i | 0 <= i < |es|
      ensures Careful(StateAt(s.disk, es, i), es[i])
    {
      PeerOverRuns(ts, s, es, i);
      StepIsCareful(ts, Before(s, es, i), es[i]);
    }
  }

  /** A peer never panics in its disk manager. */
  lemma PeerNeverPanics(ts: Catalogue, capacity: nat, files: Files, sha: Bytes -> Digest, es: seq<Event>)
    requires Equipped(ts, capacity, sha) && PeerRun(ts, NewDisk(capacity, files, sha), es)
    ensures NoCrash(Run(NewDisk(capacity, files, sha), es).1)
  {
    hide PeerRun, Equipped, CarefulRun, Run;
    PeerRunIsCareful(ts, capacity, files, sha, es);
    CarefulRunsNeverPanic(capacity, files, sha, es);
  }

  /** A step that reports a piece written reports a whole, genuine piece of a torrent of the catalogue. */
  lemma StepWritesPiece(ts: Catalogue, s: Sys, e: Event)
    requires AllValid(ts) && NoForgery(ts, s.disk.sha) && PeerInv(ts, s)
    requires Step(s.disk, e).1.Answer? && Step(s.disk, e).1.out.PieceWritten?
    ensures var out := Step(s.disk, e).1.out;
            && out.torrent in ts && KnowsSingle(s.disk, out.torrent, ts[out.torrent])
            && WritesPiece(ts[out.torrent], out.torrent, s.disk, Step(s.disk, e).1)
  {
    hide SysInv, Orderly, Ours, Confined, Step, EntryOk, CollisionFree, Disk.IsGoodPiece;
    var out := Step(s.disk, e).1.out;
    SysIsSound(s);
    WrittenIsGood(s.disk, e);
    GoodIsKnown(s.disk, out.torrent, out.block);
    OursIsKnown(ts, s.disk, out.torrent);
    ReportIsOk(s, e);
    assert Logged(out.torrent, out.block) in Report(Step(s.disk, e).1);
    ReportedWhole(Step(s.disk, e).0, Logged(out.torrent, out.block));
    HashCheckExact(ts[out.torrent], s.disk, out.torrent, out.block);
    ChunkBytes(ts[out.torrent], out.block.metadata.pieceIndex);
  }

  lemma GoodIsKnown(d: Disk, id: TorrentId, block: Block)
    requires d.IsGoodPiece(id, block)
    ensures id in d.torrents
  {
  }

  lemma ReportedWhole(d: Disk, entry: Logged)
    requires EntryOk(d, entry)
    ensures Whole(entry.block)
  {
  }

  /** The whole way. A peer adds its torrents, its schedulers hand over the pieces they assemble from whatever other
      peers send, and blocks are read, in any order and any number of times. Whatever is read of a piece that was
      reported written carries the bytes of the content and reaches the next peer unchanged. */
  lemma PeerSeedsTheContent(ts: Catalogue, capacity: nat, files: Files, sha: Bytes -> Digest, es: seq<Event>,
                            i: nat, j: nat)
    requires Equipped(ts, capacity, sha) && PeerRun(ts, NewDisk(capacity, files, sha), es) && i < j < |es|
    requires var outs := Run(NewDisk(capacity, files, sha), es).1;
             && outs[i].Answer? && outs[i].out.PieceWritten? && outs[j].Answer? && outs[j].out.BlockRead?
             && outs[j].out.torrent == outs[i].out.torrent
             && outs[j].out.block.metadata.pieceIndex == outs[i].out.block.metadata.pieceIndex
    ensures var outs := Run(NewDisk(capacity, files, sha), es).1;
            && outs[i].out.torrent in ts
            && var t := ts[outs[i].out.torrent];
               && Genuine(t, outs[i].out.block)
               && (FitsTheWire(t) && t.HasBlock(outs[j].out.block.metadata) ==> Seedable(t, outs[j].out.block))
  {
    hide PeerInv, PeerRun, PeerStep, CarefulRun, Run, Reports, NoForgery, AllValid, Step, Seedable, Genuine,
      WritesPiece, KnowsSingle;
    var s := Initial(capacity, files, sha);
    NewPeer(ts, capacity, files, sha);
    PeerOverRuns(ts, s, es, i);
    RunStep(s.disk, es, i);
    var d := StateAt(s.disk, es, i);
    StepWritesPiece(ts, Before(s, es, i), es[i]);
    var id := Run(s.disk, es).1[i].out.torrent;
    PeerIsSound(ts, Before(s, es, i));
    StepWritesGenuine(ts[id], id, d, es[i]);
    PeerRunIsCareful(ts, capacity, files, sha, es);
    var read := Run(s.disk, es).1[j].out.block;
    if FitsTheWire(ts[id]) && ts[id].HasBlock(read.metadata) {
      SeedingFromTheStart(ts[id], id, capacity, files, sha, es, i, j);
    }
  }

  lemma PeerIsSound(ts: Catalogue, s: Sys)
    requires AllValid(ts) && PeerInv(ts, s)
    ensures Sound(s.disk)
  {
    hide SysInv, Orderly, Ours, Confined, AllValid;
    SysIsSound(s);
  }
}
