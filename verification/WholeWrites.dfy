/** Reading blocks and writing whole pieces, as the scheduler hands them over: the disk manager never panics, and no
    write ever spoils what has been written, however often a piece is written again (src/disk/manager.rs). */
module WholeWrites {
  import opened Messages
  import opened Blocks
  import opened DiskFiles
  import opened DiskJobs
  import opened DiskManagers
  import opened DiskRuns
  import opened Provenance
  import opened DiskPanics
  import opened Exclusivity
  import opened Tracks
  import opened WrittenLog
  import opened DiskHistories

  /** A block that starts its piece and has the length it claims. */
  predicate Whole(b: Block) {
    b.metadata.blockOffset == 0 && b.IsCorrectLen()
  }

  /** No two byte strings have the hash of the piece. */
  ghost predicate NoCollision(d: Disk, t: TorrentId, i: nat)
    requires t in d.torrents && i < |d.torrents[t].pieces|
  {
    forall x, y :: d.sha(x) == d.torrents[t].pieces[i] && d.sha(y) == d.torrents[t].pieces[i] ==> x == y
  }

  ghost predicate InOneFile(d: Disk, t: TorrentId, m: BlockMetadata) {
    exists f :: Placed(d.torrents, t, m, f)
  }

  /** The write request at the head of the queue, if its hash is right, is a whole piece that lies in one
      file, and the hash does not collide. */
  ghost predicate HeadWhole(d: Disk) {
    d.queue != [] && d.queue[0].Submit? && d.queue[0].request.WriteRequest? ==>
      var r := d.queue[0].request;
      d.IsGoodPiece(r.torrent, r.block) ==>
        && Whole(r.block) && NoCollision(d, r.torrent, r.block.metadata.pieceIndex)
        && InOneFile(d, r.torrent, r.block.metadata)
  }

  /** A step that the scheduler and a well-behaved file system make: torrents have a file, the cache has room, no
      transfer goes astray, and what is written are whole pieces. Nothing is said about panics. */
  ghost predicate Careful(d: Disk, e: Event) {
    && Possible(e) && (e.Enqueue? && e.message.AddTorrent? ==> Grounded(e.message.torrent))
    && Roomy(d, e) && (e.PollJob? && e.k < |d.active| ==> SmoothJob(d, d.active[e.k], e.ios))
    && (e.Pop? ==> HeadWhole(d))
  }

  ghost predicate EntryOk(d: Disk, entry: Logged) {
    Whole(entry.block) && d.IsGoodPiece(entry.torrent, entry.block)
  }

  predicate JobWhole(j: Job) {
    j.write ==> && |j.parts| == 1 && Whole(Block(j.metadata, j.parts[0].block))
                && j.parts[0].window.length == |j.parts[0].block|
  }

  /** Every torrent, known or announced, has a file at the start. */
  ghost predicate AllGrounded(d: Disk) {
    && (forall t :: t in d.torrents ==> Grounded(d.torrents[t]))
    && (forall m :: m in d.queue && m.AddTorrent? ==> Grounded(m.torrent))
  }

  /** Everything being written is a whole piece, in one file, and everything written is a whole piece with the right
      hash. */
  ghost predicate Orderly(s: Sys) {
    && AllGrounded(s.disk)
    && (forall i :: 0 <= i < |s.log| ==> EntryOk(s.disk, s.log[i]))
    && (forall k :: 0 <= k < |s.disk.active| ==> JobWhole(s.disk.active[k]))
  }

  // ---------------------------------------------------------------- no harm

  lemma PiecesApart(t: TorrentFile, m: BlockMetadata, n: BlockMetadata)
    requires t.InPiece(m) && t.InPiece(n) && m.pieceIndex < n.pieceIndex
    ensures t.EndOf(m) <= t.StartOf(n)
  {
    var k := n.pieceIndex - m.pieceIndex - 1;
    assert t.pieceLength * n.pieceIndex == t.pieceLength * m.pieceIndex + t.pieceLength + t.pieceLength * k;
    assert t.pieceLength * k >= 0;
  }

  /** Two whole pieces of one torrent in one file: the one is harmless to the other. */
  lemma PieceIsHarmless(d: Disk, id: TorrentId, a: Block, b: Block, f: FileEntry)
    requires Placed(d.torrents, id, a.metadata, f) && Placed(d.torrents, id, b.metadata, f)
    requires Whole(a) && Whole(b) && d.IsGoodPiece(id, a) && d.IsGoodPiece(id, b)
    requires NoCollision(d, id, a.metadata.pieceIndex)
    ensures var t := d.torrents[id];
            Harmless(FileWindow(t.StartOf(a.metadata) - f.offset, a.metadata.blockLength), a.data,
                     At(t, b.metadata, f), Payload(b))
  {
    var t := d.torrents[id];
    if a.metadata.pieceIndex < b.metadata.pieceIndex {
      PiecesApart(t, a.metadata, b.metadata);
    } else if b.metadata.pieceIndex < a.metadata.pieceIndex {
      PiecesApart(t, b.metadata, a.metadata);
    } else {
      assert a.data == b.data;
      assert a.data[..|a.data|] == a.data;
    }
  }

  /** A file with a given identifier belongs to one torrent, and is one file of it. */
  lemma SameEntry(d: Disk, t: TorrentId, u: TorrentId, f: FileEntry, g: FileEntry)
    requires TorrentsOk(d) && t in d.torrents && u in d.torrents
    requires f in d.torrents[t].files && g in d.torrents[u].files && f.id == g.id
    ensures t == u && f == g
  {
    var i :| 0 <= i < |d.torrents[t].files| && d.torrents[t].files[i] == f;
    var j :| 0 <= j < |d.torrents[u].files| && d.torrents[u].files[j] == g;
  }

  /** The one window of a block that lies in one file. */
  function WindowIn(t: TorrentFile, m: BlockMetadata, f: FileEntry): FileWindow
    requires t.Contains(f, m)
  {
    FileWindow(t.StartOf(m) - f.offset, m.blockLength)
  }

  lemma HeadWindow(d: Disk, f: FileEntry)
    requires TorrentsOk(d) && d.queue != [] && d.queue[0].Submit?
    requires Placed(d.torrents, d.queue[0].request.torrent, KeyOf(d.queue[0].request).metadata, f)
    ensures var r := d.queue[0].request; WantedFiles(d) == [(f, WindowIn(d.torrents[r.torrent], KeyOf(r).metadata, f))]
  {
    var r := d.queue[0].request;
    WindowExact(d.torrents[r.torrent], KeyOf(r).metadata);
    hide TorrentFile.FilesForBlock;
    assert IsExact(d.torrents[r.torrent], KeyOf(r).metadata, f);
  }

  /** A whole piece spoils nothing that is written in its file. */
  lemma WholeIsClear(s: Sys, id: TorrentId, block: Block, f: FileEntry)
    requires TorrentsOk(s.disk) && Orderly(s) && Placed(s.disk.torrents, id, block.metadata, f)
    requires s.disk.IsGoodPiece(id, block) && Whole(block) && NoCollision(s.disk, id, block.metadata.pieceIndex)
    ensures Clear(s, f.id, WindowIn(s.disk.torrents[id], block.metadata, f), block.data)
  {
    hide TorrentFile.FilesForBlock, Harmless, NoCollision, TorrentsOk, Disk.IsGoodPiece, Whole;
    var d, w := s.disk, WindowIn(s.disk.torrents[id], block.metadata, f);
    forall i, g | 0 <= i < |s.log| && Placed(d.torrents, s.log[i].torrent, s.log[i].block.metadata, g) && g.id == f.id
      ensures Harmless(w, block.data, At(d.torrents[s.log[i].torrent], s.log[i].block.metadata, g),
                       Payload(s.log[i].block))
    {
      SameEntry(d, id, s.log[i].torrent, f, g);
      assert EntryOk(d, s.log[i]);
      PieceIsHarmless(d, id, block, s.log[i].block, f);
    }
  }

  lemma HeadIsHarmless(s: Sys)
    requires TorrentsOk(s.disk) && Orderly(s) && HeadWhole(s.disk)
    ensures NoRewrite(s)
  {
    hide TorrentsOk, Orderly, NoCollision, Placed, Disk.IsGoodPiece, Whole, Clear, WantedFiles;
    var d := s.disk;
    if d.queue != [] && d.queue[0].Submit? && d.queue[0].request.WriteRequest?
       && d.IsGoodPiece(d.queue[0].request.torrent, d.queue[0].request.block) {
      var r := d.queue[0].request;
      var f :| Placed(d.torrents, r.torrent, r.block.metadata, f);
      HeadWindow(d, f);
      WholeIsClear(s, r.torrent, r.block, f);
    }
  }

  // ---------------------------------------------------------------- no panic

  /** A block inside its piece always gets a file. */
  lemma GroundedHasFile(t: TorrentFile, m: BlockMetadata)
    requires Grounded(t) && t.InPiece(m)
    ensures t.FilesForBlock(m).value != []
  {
    NoFileExact(t, t.files, m, []);
  }

  lemma HeadNeverPanics(d: Disk, opens: seq<OpenIo>)
    requires TorrentsOk(d) && AllGrounded(d) && HeadWhole(d) && d.queue != []
    ensures !Panics(d, Pop(opens))
  {
    hide TorrentsOk, NoCollision, Disk.IsGoodPiece, Whole, Placed, TorrentFile.Scan, AcquireFiles, Grounded;
    if d.queue[0].Submit? {
      var r := d.queue[0].request;
      var rest := d.(queue := d.queue[1..]);
      SameGood(d, rest);
      if r.torrent in d.torrents && d.torrents[r.torrent].InPiece(KeyOf(r).metadata) {
        GroundedHasFile(d.torrents[r.torrent], KeyOf(r).metadata);
        if r.WriteRequest? && d.IsGoodPiece(r.torrent, r.block) {
          var f :| Placed(d.torrents, r.torrent, r.block.metadata, f);
          HeadWindow(d, f);
        }
      }
    }
  }

  lemma SameGood(a: Disk, b: Disk)
    requires a.torrents == b.torrents && a.sha == b.sha
    ensures forall t, block :: a.IsGoodPiece(t, block) == b.IsGoodPiece(t, block)
  {
  }

  lemma PollNeverPanics(d: Disk, k: nat, ios: seq<FileIo>)
    requires k < |d.active| ==> JobWhole(d.active[k])
    ensures !Panics(d, PollJob(k, ios))
  {
  }

  /** No careful step panics, spoils anything, or runs a job off its track. */
  lemma CarefulIsAllowed(s: Sys, e: Event)
    requires SysInv(s) && Orderly(s) && Careful(s.disk, e)
    ensures Allowed(s, e)
  {
    hide Exclusive, LogHolds, PartsFine, JobSound, JobClear, AllGrounded, NoRewrite, Roomy, SmoothJob, HeadWhole,
      TorrentsOk, JobWhole, EntryOk, Panics;
    match e
    case Enqueue(_) => EnqueueNeverPanics(s.disk, e);
    case PollJob(k, ios) => PollNeverPanics(s.disk, k, ios);
    case Pop(opens) =>
      assert TorrentsOk(s.disk);
      HeadIsHarmless(s);
      if s.disk.queue == [] {
        IdleNeverPanics(s.disk, opens);
      } else {
        HeadNeverPanics(s.disk, opens);
      }
  }

  lemma EnqueueNeverPanics(d: Disk, e: Event)
    requires e.Enqueue?
    ensures !Panics(d, e)
  {
  }

  lemma IdleNeverPanics(d: Disk, opens: seq<OpenIo>)
    requires d.queue == []
    ensures !Panics(d, Pop(opens))
  {
  }

  // ---------------------------------------------------------------- staying orderly

  lemma EntryStaysOk(a: Disk, b: Disk, entry: Logged)
    requires Grows(a, b) && EntryOk(a, entry)
    ensures EntryOk(b, entry)
  {
  }

  lemma EntriesStayOk(s: Sys, d: Disk)
    requires Grows(s.disk, d) && Orderly(s)
    ensures forall i :: 0 <= i < |s.log| ==> EntryOk(d, s.log[i])
  {
    hide EntryOk, AllGrounded, JobWhole;
    forall i | 0 <= i < |s.log|
      ensures EntryOk(d, s.log[i])
    {
      EntryStaysOk(s.disk, d, s.log[i]);
    }
  }

  lemma SysTorrents(s: Sys)
    requires SysInv(s)
    ensures TorrentsOk(s.disk)
  {
    hide Exclusive, PartsFine, JobSound, JobClear, LogHolds, TorrentsOk;
  }

  /** A finished job that reports a block written reports a whole piece with the right hash. */
  lemma FinishedIsOk(d: Disk, j: Job)
    requires JobSound(d, j) && TorrentsOk(d) && JobWhole(j) && Finalize(j).PieceWritten?
    ensures EntryOk(d, Logged(Finalize(j).torrent, Finalize(j).block))
  {
    hide Situated, TorrentsOk, Disk.IsGoodPiece;
    FinishedIsGood(d, j);
  }

  lemma PolledIsWhole(d: Disk, k: nat, ios: seq<FileIo>)
    requires k < |d.active| && JobWhole(d.active[k])
    requires PollParts(d.active[k].write, d.active[k].parts, d.files, ios).JobPoll?
    ensures JobWhole(Polled(d, k, ios).active[k])
  {
    hide PollParts;
    SameParts(d.active[k].write, d.active[k].parts, d.files, ios);
  }

  lemma PollKeepsJobsWhole(d: Disk, k: nat, ios: seq<FileIo>)
    requires k < |d.active| && forall x :: 0 <= x < |d.active| ==> JobWhole(d.active[x])
    ensures var d' := d.PollJob(k, ios).0; forall x :: 0 <= x < |d'.active| ==> JobWhole(d'.active[x])
  {
    hide Disk.PollJob, PollParts, JobWhole, Finalize;
    PollShape(d, k, ios);
    var d' := d.PollJob(k, ios).0;
    forall x | 0 <= x < |d'.active|
      ensures JobWhole(d'.active[x])
    {
      if x < |d.active| - 1 {
        var i := SwapRemoveElement(d.active, k, x);
      } else {
        PolledIsWhole(d, k, ios);
      }
    }
  }

  /** Whatever a step reports written is all right. */
  lemma ReportIsOk(s: Sys, e: Event)
    requires SysInv(s) && Orderly(s)
    ensures forall x :: x in Report(Step(s.disk, e).1) ==> EntryOk(Step(s.disk, e).0, x)
  {
    hide Step, SysInv, Disk.PollJob, PollParts, EntryOk, JobWhole, TorrentsOk, JobSound, PartsFine, JobClear, Exclusive;
    var (d', r) := Step(s.disk, e);
    if r.Answer? && r.out.PieceWritten? {
      ReportsComeFromJobs(s.disk, e);
      ActiveFine(s, e.k);
      PollShape(s.disk, e.k, e.ios);
      PolledIsSound(s.disk, e.k, e.ios);
      PolledIsWhole(s.disk, e.k, e.ios);
      var j := Polled(s.disk, e.k, e.ios).active[e.k];
      FinishedIsOk(s.disk, j);
      EntryStaysOk(s.disk, d', Logged(r.out.torrent, r.out.block));
    }
  }

  lemma FreshIsWhole(d: Disk, j: Job)
    requires d.queue != [] && d.queue[0].Submit? && Fresh(d, d.queue[0].request, j) && HeadWhole(d) && TorrentsOk(d)
    ensures JobWhole(j)
  {
    hide TorrentsOk, NoCollision, Disk.IsGoodPiece, Placed, TorrentFile.FilesForBlock;
    if j.write {
      var r := d.queue[0].request;
      var f :| Placed(d.torrents, r.torrent, r.block.metadata, f);
      HeadWindow(d, f);
    }
  }

  lemma PopKeepsJobsWhole(d: Disk, opens: seq<OpenIo>)
    requires d.queue != [] && HeadWhole(d) && TorrentsOk(d) && forall x :: 0 <= x < |d.active| ==> JobWhole(d.active[x])
    ensures var d' := d.Pop(opens).0; forall x :: 0 <= x < |d'.active| ==> JobWhole(d'.active[x])
  {
    hide Disk.Pop, JobWhole, Fresh, HeadWhole, TorrentsOk;
    PopShape(d, opens);
    var d' := d.Pop(opens).0;
    if d'.active != d.active {
      var j :| d'.active == d.active + [j] && Fresh(d, d.queue[0].request, j);
      FreshIsWhole(d, j);
    }
  }

  lemma StepKeepsJobsWhole(s: Sys, e: Event)
    requires SysInv(s) && Orderly(s) && Careful(s.disk, e)
    ensures var d := Step(s.disk, e).0; forall x :: 0 <= x < |d.active| ==> JobWhole(d.active[x])
  {
    hide Disk.PollJob, Disk.Pop, SysInv, JobWhole, HeadWhole, EntryOk, AllGrounded, TorrentsOk, Roomy, SmoothJob;
    SysTorrents(s);
    match e
    case Enqueue(_) =>
    case PollJob(k, ios) =>
      if k < |s.disk.active| {
        PollKeepsJobsWhole(s.disk, k, ios);
      }
    case Pop(opens) =>
      if s.disk.queue != [] {
        PopKeepsJobsWhole(s.disk, opens);
      }
  }

  lemma StepKeepsGrounded(d: Disk, e: Event)
    requires AllGrounded(d) && Careful(d, e)
    ensures AllGrounded(Step(d, e).0)
  {
    hide Disk.PollJob, Disk.Start, Grounded, HeadWhole, Roomy, SmoothJob, WellLaid;
    match e
    case Enqueue(m) =>
      assert forall x :: x in d.queue + [m] <==> x in d.queue || x == m;
    case PollJob(k, ios) =>
      if k < |d.active| {
        PollShape(d, k, ios);
      }
    case Pop(opens) =>
      if d.queue != [] {
        assert d.queue[0] in d.queue;
        assert forall x :: x in d.queue[1..] ==> x in d.queue;
        if d.queue[0].Submit? {
          StartShape(d.(queue := d.queue[1..]), d.queue[0].request, opens);
        }
      }
  }

  /** Every careful step keeps the order. */
  lemma CarefulKeeps(s: Sys, e: Event)
    requires SysInv(s) && Orderly(s) && Careful(s.disk, e)
    ensures Allowed(s, e) && SysInv(Next(s, e).0) && Orderly(Next(s, e).0)
  {
    hide SysInv, Careful, Allowed, Step, EntryOk, JobWhole, AllGrounded, Report;
    CarefulIsAllowed(s, e);
    NextKeeps(s, e);
    var s' := Next(s, e).0;
    StepGrows(s.disk, e);
    EntriesStayOk(s, s'.disk);
    ReportIsOk(s, e);
    StepKeepsJobsWhole(s, e);
    StepKeepsGrounded(s.disk, e);
    forall i | 0 <= i < |s'.log|
      ensures EntryOk(s'.disk, s'.log[i])
    {
      if i >= |s.log| {
        assert s'.log[i] in Report(Step(s.disk, e).1);
      }
    }
  }

  // ---------------------------------------------------------------- runs

  ghost predicate CarefulRun(d: Disk, es: seq<Event>) {
    forall i :: 0 <= i < |es| ==> Careful(StateAt(d, es, i), es[i])
  }

  lemma {:induction false} OrderOverRuns(s: Sys, es: seq<Event>, i: nat)
    requires SysInv(s) && Orderly(s) && CarefulRun(s.disk, es) && i <= |es|
    ensures SysInv(Before(s, es, i)) && Orderly(Before(s, es, i))
  {
    hide SysInv, Orderly, Careful, Next, Run, Reports;
    if i == 0 {
      BeforeFirst(s, es);
    } else {
      OrderOverRuns(s, es, i - 1);
      BeforeNext(s, es, i - 1);
      CarefulKeeps(Before(s, es, i - 1), es[i - 1]);
    }
  }

  /** However often whole pieces are written again, in whatever order, no write ever spoils another: a careful
      run meets every condition of read-after-write. */
  lemma WholeWritesAreAllowed(s: Sys, es: seq<Event>)
    requires SysInv(s) && Orderly(s) && CarefulRun(s.disk, es)
    ensures AllowedRun(s, es)
  {
    hide SysInv, Orderly, Careful, Next, Allowed, Run, Reports;
    forall i | 0 <= i < |es|
      ensures Allowed(Before(s, es, i), es[i])
    {
      OrderOverRuns(s, es, i);
      CarefulKeeps(Before(s, es, i), es[i]);
    }
  }

  lemma InitialIsOrderly(capacity: nat, files: Files, sha: Bytes -> Digest)
    ensures Orderly(Initial(capacity, files, sha))
  {
  }

  /** A run of reads and of writes of whole pieces, each in one file, on torrents with at least one file, never
      panics. */
  lemma CarefulRunsNeverPanic(capacity: nat, files: Files, sha: Bytes -> Digest, es: seq<Event>)
    requires CarefulRun(NewDisk(capacity, files, sha), es)
    ensures NoCrash(Run(NewDisk(capacity, files, sha), es).1)
  {
    hide SysInv, Orderly, Careful, Next, Allowed, Run, Reports;
    var s := Initial(capacity, files, sha);
    InitialIsFine(capacity, files, sha);
    InitialIsOrderly(capacity, files, sha);
    forall i | 0 <= i < |es|
      ensures !Run(s.disk, es).1[i].Crash?
    {
      OrderOverRuns(s, es, i);
      CarefulKeeps(Before(s, es, i), es[i]);
      NextKeeps(Before(s, es, i), es[i]);
      BeforeNext(s, es, i);
    }
  }
}
