/** The invariant behind read-after-write: everything reported written is in its file, and no active job can spoil it
    (src/disk/manager.rs, src/disk/block.rs). */
module WrittenLog {
  import opened Messages
  import opened Blocks
  import opened DiskFiles
  import opened DiskJobs
  import opened Transfers
  import opened DiskManagers
  import opened DiskRuns
  import opened Provenance
  import opened DiskPanics
  import opened Exclusivity
  import opened Tracks

  /** A block reported as written. */
  datatype Logged = Logged(torrent: TorrentId, block: Block)

  /** The manager together with everything it has reported written. */
  datatype Sys = Sys(disk: Disk, log: seq<Logged>)

  function Report(r: Result): seq<Logged> {
    if r.Answer? && r.out.PieceWritten? then [Logged(r.out.torrent, r.out.block)] else []
  }

  function Next(s: Sys, e: Event): (Sys, Result) {
    var (d, r) := Step(s.disk, e);
    (Sys(d, s.log + Report(r)), r)
  }

  // ---------------------------------------------------------------- invariant

  /** The block lies in file `f` of the torrent. */
  predicate Placed(torrents: map<TorrentId, TorrentFile>, t: TorrentId, m: BlockMetadata, f: FileEntry) {
    && t in torrents && f in torrents[t].files
    && torrents[t].InPiece(m) && m.blockLength > 0 && torrents[t].Contains(f, m)
  }

  /** Where the block starts in the file. */
  function At(t: TorrentFile, m: BlockMetadata, f: FileEntry): int {
    t.StartOf(m) - f.offset
  }

  /** What the block puts into its window. */
  function Payload(block: Block): Bytes {
    if block.metadata.blockLength <= |block.data| then block.data[..block.metadata.blockLength] else block.data
  }

  /** The file holds the block. */
  ghost predicate Stored(content: Bytes, t: TorrentFile, block: Block, f: FileEntry) {
    && 0 < block.metadata.blockLength <= |block.data|
    && SliceIs(content, At(t, block.metadata, f), Payload(block))
  }

  /** Writing `data` into the window cannot spoil `part`, which is at position `from`: it goes elsewhere, or it
      writes the same bytes again. */
  predicate Harmless(w: FileWindow, data: Bytes, from: int, part: Bytes) {
    || w.End() <= from || from + |part| <= w.offset
    || (w.offset == from && w.length == |part| <= |data| && data[..w.length] == part)
  }

  /** Everything reported written, and lying in one file, is in that file. */
  ghost predicate LogHolds(s: Sys) {
    forall i, f :: 0 <= i < |s.log| && Placed(s.disk.torrents, s.log[i].torrent, s.log[i].block.metadata, f) ==>
      Stored(s.disk.files.At(f.id), s.disk.torrents[s.log[i].torrent], s.log[i].block, f)
  }

  /** Writing `data` into a window of a file spoils nothing that was reported written there. */
  ghost predicate Clear(s: Sys, id: FileId, w: FileWindow, data: Bytes) {
    forall i, f :: 0 <= i < |s.log| && Placed(s.disk.torrents, s.log[i].torrent, s.log[i].block.metadata, f)
                   && f.id == id ==>
      Harmless(w, data, At(s.disk.torrents[s.log[i].torrent], s.log[i].block.metadata, f), Payload(s.log[i].block))
  }

  ghost predicate JobClear(s: Sys, j: Job) {
    j.write ==>
      forall i :: 0 <= i < |j.parts| ==> Clear(s, j.parts[i].file, j.parts[i].window, j.parts[i].block)
  }

  ghost predicate SysInv(s: Sys) {
    && TrackInv(s.disk)
    && (forall k :: 0 <= k < |s.disk.active| ==> JobClear(s, s.disk.active[k]))
    && LogHolds(s)
    && (forall i :: 0 <= i < |s.log| ==> s.log[i].torrent in s.disk.torrents)
  }

  // ---------------------------------------------------------------- side conditions

  /** The write request at the head of the queue, if its hash is right, spoils nothing that has been reported
      written: it goes elsewhere or repeats it. */
  ghost predicate NoRewrite(s: Sys) {
    s.disk.queue != [] && s.disk.queue[0].Submit? && s.disk.queue[0].request.WriteRequest?
    && s.disk.IsGoodPiece(s.disk.queue[0].request.torrent, s.disk.queue[0].request.block) ==>
      var files, data := WantedFiles(s.disk), s.disk.queue[0].request.block.data;
      forall i :: 0 <= i < |files| ==> Clear(s, files[i].0.id, files[i].1, if |files| == 1 then data else [])
  }

  ghost predicate Allowed(s: Sys, e: Event) {
    Calm(s.disk, e) && (e.Pop? ==> NoRewrite(s))
  }

  // ---------------------------------------------------------------- a poll and the log

  /** A poll spoils nothing that the write is harmless to. */
  lemma PollKeepsRange(write: bool, p: Part, content: Bytes, io: FileIo, from: int, part: Bytes)
    requires PartFine(write, p, content) && Smooth(write, p, content, io) && PollPart(write, p, content, io).PartPoll?
    requires SliceIs(content, from, part) && (write ==> Harmless(p.window, p.block, from, part))
    ensures SliceIs(PollPart(write, p, content, io).content, from, part)
  {
    hide PollWrite, PollRead, WriteAstray, ReadAstray, WriteOnTrack, ReadOnTrack, WriteBounded;
    if write && (p.window.End() <= from || from + |part| <= p.window.offset) {
      WriteStaysInside(p, content, io, from, part);
    } else if write {
      RewriteKeeps(p, content, io, part);
    }
  }

  /** What `SysInv` says about one job. */
  lemma ActiveFine(s: Sys, k: nat)
    requires SysInv(s) && k < |s.disk.active|
    ensures JobSound(s.disk, s.disk.active[k]) && PartsFine(s.disk, s.disk.active[k]) && JobClear(s, s.disk.active[k])
    ensures Exclusive(s.disk) && TorrentsOk(s.disk)
  {
    hide JobSound, PartsFine, JobClear, Exclusive, TorrentsOk, LogHolds;
  }

  lemma EntryIsStored(s: Sys, i: nat, f: FileEntry)
    requires SysInv(s) && i < |s.log| && Placed(s.disk.torrents, s.log[i].torrent, s.log[i].block.metadata, f)
    ensures Stored(s.disk.files.At(f.id), s.disk.torrents[s.log[i].torrent], s.log[i].block, f)
  {
    hide TrackInv, JobClear, Stored;
  }

  lemma EntryStaysStored(s: Sys, k: nat, ios: seq<FileIo>, i: nat, f: FileEntry)
    requires SysInv(s) && k < |s.disk.active| && SmoothJob(s.disk, s.disk.active[k], ios)
    requires PollParts(s.disk.active[k].write, s.disk.active[k].parts, s.disk.files, ios).JobPoll?
    requires i < |s.log| && Placed(s.disk.torrents, s.log[i].torrent, s.log[i].block.metadata, f)
    ensures Stored(Polled(s.disk, k, ios).files.At(f.id), s.disk.torrents[s.log[i].torrent], s.log[i].block, f)
  {
    hide SysInv, PollParts, PollPart, PartsFine, PartFine, Smooth, SmoothJob, SliceIs, JobSound, TorrentsOk, Exclusive;
    var d, j := s.disk, s.disk.active[k];
    var block, t := s.log[i].block, d.torrents[s.log[i].torrent];
    ActiveFine(s, k);
    EntryIsStored(s, i, f);
    if x :| 0 <= x < |j.parts| && j.parts[x].file == f.id {
      PartAfterPoll(d, k, ios, x);
      PollKeepsRange(j.write, j.parts[x], d.files.At(f.id), IoOf(ios, x), At(t, block.metadata, f), Payload(block));
    } else {
      JobFilesDiffer(d, k);
      PollPartsEffect(j.write, j.parts, d.files, ios);
    }
  }

  lemma PolledLogHolds(s: Sys, k: nat, ios: seq<FileIo>)
    requires SysInv(s) && k < |s.disk.active| && SmoothJob(s.disk, s.disk.active[k], ios)
    requires PollParts(s.disk.active[k].write, s.disk.active[k].parts, s.disk.files, ios).JobPoll?
    ensures LogHolds(Sys(Polled(s.disk, k, ios), s.log))
  {
    hide PollParts, SysInv, SmoothJob, Stored;
    var d' := Polled(s.disk, k, ios);
    forall i, f | 0 <= i < |s.log| && Placed(d'.torrents, s.log[i].torrent, s.log[i].block.metadata, f)
      ensures Stored(d'.files.At(f.id), d'.torrents[s.log[i].torrent], s.log[i].block, f)
    {
      EntryStaysStored(s, k, ios, i, f);
    }
  }

  /** A finished write of a block that lies in one file has put it there, if it reports success. */
  lemma FinishedWriteStored(d: Disk, j: Job, f: FileEntry)
    requires JobSound(d, j) && PartsFine(d, j) && TorrentsOk(d) && Finalize(j).PieceWritten?
    requires Placed(d.torrents, j.torrent, j.metadata, f)
    ensures |j.parts| == 1 && j.parts[0].file == f.id
    ensures Finalize(j).block.metadata == j.metadata && Finalize(j).torrent == j.torrent
    ensures Stored(d.files.At(f.id), d.torrents[j.torrent], Finalize(j).block, f)
  {
    FinishedIsGood(d, j);
    AnswerNamesTorrent(d, j);
    WindowExact(d.torrents[j.torrent], j.metadata);
    assert IsExact(d.torrents[j.torrent], j.metadata, f);
    hide TorrentFile.FilesForBlock, Disk.IsGoodPiece, TorrentsOk, WellLaid;
    assert PartFine(j.write, j.parts[0], d.files.At(j.parts[0].file));
  }

  /** No active job but the one at `k` holds the file. */
  ghost predicate NoneElsewhere(d: Disk, k: nat, id: FileId) {
    forall a, x :: 0 <= a < |d.active| && a != k && 0 <= x < |d.active[a].parts| ==> d.active[a].parts[x].file != id
  }

  /** The entry that a poll adds to the log holds, and no other job is near it. */
  lemma NewEntry(s: Sys, k: nat, ios: seq<FileIo>, f: FileEntry)
    requires SysInv(s) && k < |s.disk.active| && SmoothJob(s.disk, s.disk.active[k], ios)
    requires PollParts(s.disk.active[k].write, s.disk.active[k].parts, s.disk.files, ios).JobPoll?
    requires var j := Polled(s.disk, k, ios).active[k];
             && Finalize(j).PieceWritten?
             && Placed(s.disk.torrents, Finalize(j).torrent, Finalize(j).block.metadata, f)
    ensures var d := Polled(s.disk, k, ios);
            var out := Finalize(d.active[k]);
            Stored(d.files.At(f.id), s.disk.torrents[out.torrent], out.block, f)
    ensures NoneElsewhere(s.disk, k, f.id)
  {
    hide SysInv, PollParts, PartsFine, JobSound, TorrentsOk, Exclusive, SmoothJob, JobClear, Stored, Placed;
    var d := Polled(s.disk, k, ios);
    ActiveFine(s, k);
    ThisJobFine(s.disk, k, ios);
    PolledIsSound(s.disk, k, ios);
    JobStaysSound(s.disk, d, d.active[k]);
    TorrentsFrame(s.disk, d);
    SoundIsSituated(d, d.active[k]);
    FinishedFits(d, d.active[k]);
    FinishedWriteStored(d, d.active[k], f);
    SameParts(s.disk.active[k].write, s.disk.active[k].parts, s.disk.files, ios);
    forall a, x | 0 <= a < |s.disk.active| && a != k && 0 <= x < |s.disk.active[a].parts|
      ensures s.disk.active[a].parts[x].file != f.id
    {
      ElsewhereFiles(s.disk, k, a, x, 0);
    }
  }

  /** The log after a poll holds, and the jobs that were not polled can spoil nothing of it. */
  lemma LogAfterPoll(s: Sys, k: nat, ios: seq<FileIo>)
    requires SysInv(s) && k < |s.disk.active| && SmoothJob(s.disk, s.disk.active[k], ios)
    requires !s.disk.PollJob(k, ios).1.Crash?
    ensures LogHolds(Next(s, PollJob(k, ios)).0)
    ensures forall a :: 0 <= a < |s.disk.active| && a != k ==> JobClear(Next(s, PollJob(k, ios)).0, s.disk.active[a])
  {
    hide PollParts, SysInv, SmoothJob, Stored, Disk.PollJob, Finalize, JobSound, PartsFine, TorrentsOk,
      Exclusive, Harmless;
    PollShape(s.disk, k, ios);
    var (s', r) := Next(s, PollJob(k, ios));
    PolledLogHolds(s, k, ios);
    forall i, f | 0 <= i < |s'.log| && Placed(s'.disk.torrents, s'.log[i].torrent, s'.log[i].block.metadata, f)
      ensures Stored(s'.disk.files.At(f.id), s'.disk.torrents[s'.log[i].torrent], s'.log[i].block, f)
      ensures i >= |s.log| ==> NoneElsewhere(s.disk, k, f.id)
    {
      if i >= |s.log| {
        NewEntry(s, k, ios, f);
      }
    }
    forall a | 0 <= a < |s.disk.active| && a != k
      ensures JobClear(s', s.disk.active[a])
    {
      ActiveFine(s, a);
      OthersStayClear(s, s', k, a);
    }
  }

  lemma OthersStayClear(s: Sys, s': Sys, k: nat, a: nat)
    requires a < |s.disk.active| && a != k && JobClear(s, s.disk.active[a])
    requires s'.disk.torrents == s.disk.torrents && |s.log| <= |s'.log| && s'.log[..|s.log|] == s.log
    requires forall i, f :: |s.log| <= i < |s'.log|
                            && Placed(s'.disk.torrents, s'.log[i].torrent, s'.log[i].block.metadata, f) ==>
               NoneElsewhere(s.disk, k, f.id)
    ensures JobClear(s', s.disk.active[a])
  {
    hide Harmless, Placed;
    var j := s.disk.active[a];
    assert forall i :: 0 <= i < |s.log| ==> s'.log[i] == s'.log[..|s.log|][i] == s.log[i];
    if j.write {
      forall x | 0 <= x < |j.parts|
        ensures Clear(s', j.parts[x].file, j.parts[x].window, j.parts[x].block)
      {
        assert Clear(s, j.parts[x].file, j.parts[x].window, j.parts[x].block);
      }
    }
  }

  // ---------------------------------------------------------------- keeping the invariant

  lemma ClearFrame(s: Sys, s': Sys, j: Job)
    requires s.log == s'.log && s.disk.torrents == s'.disk.torrents
    ensures JobClear(s, j) <==> JobClear(s', j)
  {
    hide Harmless, Placed;
    assert forall id, w, data :: Clear(s, id, w, data) <==> Clear(s', id, w, data);
  }

  /** The polled job can spoil nothing, before and after. */
  lemma PolledStaysClear(s: Sys, k: nat, ios: seq<FileIo>)
    requires k < |s.disk.active| && JobClear(s, s.disk.active[k])
    requires PollParts(s.disk.active[k].write, s.disk.active[k].parts, s.disk.files, ios).JobPoll?
    ensures JobClear(s, Polled(s.disk, k, ios).active[k])
  {
    hide PollParts, Clear;
    SameParts(s.disk.active[k].write, s.disk.active[k].parts, s.disk.files, ios);
  }

  lemma PollStepJobs(s: Sys, k: nat, ios: seq<FileIo>, x: nat)
    requires SysInv(s) && Calm(s.disk, PollJob(k, ios)) && k < |s.disk.active| && !s.disk.PollJob(k, ios).1.Crash?
    requires x < |Next(s, PollJob(k, ios)).0.disk.active|
    ensures var s' := Next(s, PollJob(k, ios)).0; JobClear(s', s'.disk.active[x])
  {
    hide PollParts, SysInv, SmoothJob, Disk.PollJob, Finalize, JobClear, Panics, JobSound, PartsFine, TorrentsOk,
      Exclusive, LogHolds;
    PollShape(s.disk, k, ios);
    LogAfterPoll(s, k, ios);
    var s' := Next(s, PollJob(k, ios)).0;
    if x < |s.disk.active| - 1 {
      var i := SwapRemoveElement(s.disk.active, k, x);
    } else {
      ActiveFine(s, k);
      PolledStaysClear(s, k, ios);
      assert s'.log == s.log;
      ClearFrame(s, s', Polled(s.disk, k, ios).active[k]);
    }
  }

  /** Whatever a step reports written belongs to a known torrent. */
  lemma ReportIsKnown(s: Sys, e: Event)
    requires SysInv(s)
    ensures forall x :: x in Report(Step(s.disk, e).1) ==> x.torrent in s.disk.torrents
  {
    hide Step, JobClear, LogHolds, Exclusive, PartsFine;
    var r := Step(s.disk, e).1;
    if r.Answer? && r.out.PieceWritten? {
      WrittenIsGood(s.disk, e);
    }
  }

  lemma PollStepKeeps(s: Sys, k: nat, ios: seq<FileIo>)
    requires SysInv(s) && Allowed(s, PollJob(k, ios)) && k < |s.disk.active|
    ensures SysInv(Next(s, PollJob(k, ios)).0)
  {
    hide Disk.PollJob, JobClear, TrackInv, LogHolds, Calm, Report;
    CalmKeeps(s.disk, PollJob(k, ios));
    CalmSmooth(s.disk, k, ios);
    LogAfterPoll(s, k, ios);
    ReportIsKnown(s, PollJob(k, ios));
    StepGrows(s.disk, PollJob(k, ios));
    var s' := Next(s, PollJob(k, ios)).0;
    forall x | 0 <= x < |s'.disk.active|
      ensures JobClear(s', s'.disk.active[x])
    {
      PollStepJobs(s, k, ios, x);
    }
    forall i | 0 <= i < |s'.log|
      ensures s'.log[i].torrent in s'.disk.torrents
    {
      if i >= |s.log| {
        assert s'.log[i] in Report(Step(s.disk, PollJob(k, ios)).1);
      }
    }
  }

  lemma CalmSmooth(d: Disk, k: nat, ios: seq<FileIo>)
    requires Calm(d, PollJob(k, ios)) && k < |d.active|
    ensures SmoothJob(d, d.active[k], ios)
  {
  }

  /** What is written where stays the same when torrents are added. */
  lemma SamePlaces(s: Sys, s': Sys)
    requires s'.log == s.log && Grows(s.disk, s'.disk)
    requires forall i :: 0 <= i < |s.log| ==> s.log[i].torrent in s.disk.torrents
    ensures forall i, f :: 0 <= i < |s.log| ==>
              (Placed(s'.disk.torrents, s.log[i].torrent, s.log[i].block.metadata, f)
               <==> Placed(s.disk.torrents, s.log[i].torrent, s.log[i].block.metadata, f))
  {
  }

  lemma GrownClear(s: Sys, s': Sys, j: Job)
    requires s'.log == s.log && Grows(s.disk, s'.disk) && JobClear(s, j)
    requires forall i :: 0 <= i < |s.log| ==> s.log[i].torrent in s.disk.torrents
    ensures JobClear(s', j)
  {
    hide Harmless, Placed;
    SamePlaces(s, s');
    if j.write {
      forall i | 0 <= i < |j.parts|
        ensures Clear(s', j.parts[i].file, j.parts[i].window, j.parts[i].block)
      {
        assert Clear(s, j.parts[i].file, j.parts[i].window, j.parts[i].block);
      }
    }
  }

  lemma GrownLog(s: Sys, s': Sys)
    requires s'.log == s.log && s'.disk.files == s.disk.files && Grows(s.disk, s'.disk) && LogHolds(s)
    requires forall i :: 0 <= i < |s.log| ==> s.log[i].torrent in s.disk.torrents
    ensures LogHolds(s')
  {
    hide Stored;
    SamePlaces(s, s');
    forall i, f | 0 <= i < |s'.log| && Placed(s'.disk.torrents, s'.log[i].torrent, s'.log[i].block.metadata, f)
      ensures Stored(s'.disk.files.At(f.id), s'.disk.torrents[s'.log[i].torrent], s'.log[i].block, f)
    {
      assert Placed(s.disk.torrents, s.log[i].torrent, s.log[i].block.metadata, f);
    }
  }

  lemma EnqueueStepKeeps(s: Sys, m: Message)
    requires SysInv(s) && Allowed(s, Enqueue(m))
    ensures SysInv(Next(s, Enqueue(m)).0)
  {
    hide JobClear, TrackInv, LogHolds, Calm;
    CalmKeeps(s.disk, Enqueue(m));
    var s' := Next(s, Enqueue(m)).0;
    assert s'.log == s.log;
    GrownLog(s, s');
    forall k | 0 <= k < |s.disk.active|
      ensures JobClear(s', s.disk.active[k])
    {
      GrownClear(s, s', s.disk.active[k]);
    }
  }

  lemma FreshIsClear(s: Sys, j: Job)
    requires s.disk.queue != [] && s.disk.queue[0].Submit? && Fresh(s.disk, s.disk.queue[0].request, j) && NoRewrite(s)
    ensures JobClear(s, j)
  {
    hide TorrentFile.FilesForBlock, Placed;
    if j.write {
      var r, files := s.disk.queue[0].request, WantedFiles(s.disk);
      forall i | 0 <= i < |j.parts|
        ensures Clear(s, j.parts[i].file, j.parts[i].window, j.parts[i].block)
      {
        assert Clear(s, files[i].0.id, files[i].1, if |files| == 1 then r.block.data else []);
      }
    }
  }

  lemma PopLogsNothing(d: Disk, opens: seq<OpenIo>)
    requires d.queue != []
    ensures Report(d.Pop(opens).1) == []
  {
    hide AcquireFiles, TorrentFile.FilesForBlock, Fragments, ReadParts, Disk.IsGoodPiece;
  }

  lemma PopStepKeeps(s: Sys, opens: seq<OpenIo>)
    requires SysInv(s) && Allowed(s, Pop(opens)) && s.disk.queue != []
    ensures SysInv(Next(s, Pop(opens)).0)
  {
    hide Disk.Pop, JobClear, TrackInv, LogHolds, Calm, NoRewrite, Fresh, Report;
    CalmKeeps(s.disk, Pop(opens));
    PopLogsNothing(s.disk, opens);
    PopShape(s.disk, opens);
    var s' := Next(s, Pop(opens)).0;
    assert s'.log == s.log;
    GrownLog(s, s');
    if s'.disk.active != s.disk.active {
      var j :| s'.disk.active == s.disk.active + [j] && Fresh(s.disk, s.disk.queue[0].request, j);
      FreshIsClear(s, j);
    }
    forall x | 0 <= x < |s'.disk.active|
      ensures JobClear(s', s'.disk.active[x])
    {
      GrownClear(s, s', s'.disk.active[x]);
    }
  }

  /** Every allowed step keeps the invariant. */
  lemma NextKeeps(s: Sys, e: Event)
    requires SysInv(s) && Allowed(s, e)
    ensures SysInv(Next(s, e).0) && !Next(s, e).1.Crash?
  {
    hide TrackInv, Calm, Disk.PollJob, Disk.Pop, JobClear, LogHolds, NoRewrite;
    CalmKeeps(s.disk, e);
    match e
    case Enqueue(m) => EnqueueStepKeeps(s, m);
    case PollJob(k, ios) =>
      if k < |s.disk.active| {
        PollStepKeeps(s, k, ios);
      } else {
        assert Next(s, e).0 == s;
      }
    case Pop(opens) =>
      if s.disk.queue != [] {
        PopStepKeeps(s, opens);
      } else {
        assert Next(s, e).0 == s;
      }
  }
}
