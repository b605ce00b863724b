/** Read after write, over whole runs of the disk manager: what is reported written is what is read later, however
    jobs interleave (src/disk/manager.rs, src/disk/block.rs). */
module DiskHistories {
  import opened Messages
  import opened Blocks
  import opened DiskFiles
  import opened DiskJobs
  import opened DiskManagers
  import opened DiskRuns
  import opened Provenance
  import opened Exclusivity
  import opened Tracks
  import opened WrittenLog

  // ---------------------------------------------------------------- runs

  /** Everything that a list of results reports written, in order. */
  function Reports(outs: seq<Result>): seq<Logged> {
    if outs == [] then [] else Report(outs[0]) + Reports(outs[1..])
  }

  lemma {:induction false} ReportsAppend(outs: seq<Result>, r: Result)
    ensures Reports(outs + [r]) == Reports(outs) + Report(r)
  {
    hide Report;
    if outs == [] {
      assert outs + [r] == [r] && [r][1..] == [];
      assert Reports([r]) == Report(r) + Reports([r][1..]);
    } else {
      ReportsAppend(outs[1..], r);
      assert (outs + [r])[1..] == outs[1..] + [r] && (outs + [r])[0] == outs[0];
    }
  }

  /** The system before event `i`: the manager, and what it has reported written so far. */
  function Before(s: Sys, es: seq<Event>, i: nat): Sys
    requires i <= |es|
  {
    Sys(StateAt(s.disk, es, i), s.log + Reports(Run(s.disk, es[..i]).1))
  }

  function ResultOf(s: Sys, es: seq<Event>, i: nat): Result
    requires i < |es|
  {
    Run(s.disk, es).1[i]
  }

  ghost predicate AllowedRun(s: Sys, es: seq<Event>) {
    forall i :: 0 <= i < |es| ==> Allowed(Before(s, es, i), es[i])
  }

  /** A manager that has done nothing yet, on any files. */
  function Initial(capacity: nat, files: Files, sha: Bytes -> Digest): Sys {
    Sys(NewDisk(capacity, files, sha), [])
  }

  lemma InitialIsFine(capacity: nat, files: Files, sha: Bytes -> Digest)
    ensures SysInv(Initial(capacity, files, sha))
  {
    NewDiskIsOnTrack(capacity, files, sha);
    hide TrackInv;
  }

  lemma BeforeFirst(s: Sys, es: seq<Event>)
    ensures Before(s, es, 0) == s
  {
    assert es[..0] == [];
    assert s.log + [] == s.log;
  }

  lemma BeforeNext(s: Sys, es: seq<Event>, i: nat)
    requires i < |es|
    ensures (Before(s, es, i + 1), ResultOf(s, es, i)) == Next(Before(s, es, i), es[i])
  {
    hide Run, Step, Reports, Report;
    RunStep(s.disk, es, i);
    ReportsAppend(Run(s.disk, es[..i]).1, Run(s.disk, es).1[i]);
    var sofar := Reports(Run(s.disk, es[..i]).1);
    assert s.log + (sofar + Report(Run(s.disk, es).1[i])) == s.log + sofar + Report(Run(s.disk, es).1[i]);
  }

  /** The invariant holds all along every allowed run. */
  lemma {:induction false} InvariantOverRuns(s: Sys, es: seq<Event>, i: nat)
    requires SysInv(s) && AllowedRun(s, es) && i <= |es|
    ensures SysInv(Before(s, es, i))
  {
    hide SysInv, Allowed, Next, Before;
    if i == 0 {
      BeforeFirst(s, es);
    } else {
      InvariantOverRuns(s, es, i - 1);
      BeforeNext(s, es, i - 1);
      NextKeeps(Before(s, es, i - 1), es[i - 1]);
    }
  }

  // ---------------------------------------------------------------- what only grows

  /** Torrents stay, and so does what has been reported written. */
  ghost predicate Extends(a: Sys, b: Sys) {
    |a.log| <= |b.log| && b.log[..|a.log|] == a.log && Grows(a.disk, b.disk)
  }

  lemma {:induction false} RunExtends(s: Sys, es: seq<Event>, i: nat, j: nat)
    requires i <= j <= |es|
    ensures Extends(Before(s, es, i), Before(s, es, j))
    decreases j
  {
    hide Before, Step, Report;
    if i < j {
      var a, b, c := Before(s, es, i), Before(s, es, j - 1), Before(s, es, j);
      RunExtends(s, es, i, j - 1);
      BeforeNext(s, es, j - 1);
      StepGrows(b.disk, es[j - 1]);
      assert c.log[..|b.log|] == b.log;
      assert c.log[..|a.log|] == c.log[..|b.log|][..|a.log|];
    }
  }

  // ---------------------------------------------------------------- read after write

  /** `m` is a part of the block at `n`. */
  predicate Within(m: BlockMetadata, n: BlockMetadata) {
    m.pieceIndex == n.pieceIndex && n.blockOffset <= m.blockOffset && m.End() <= n.End() && m.blockLength > 0
  }

  /** The bytes of a block that belong to `m`. */
  function Cut(block: Block, m: BlockMetadata): Bytes
    requires Within(m, block.metadata) && block.metadata.blockLength <= |block.data|
  {
    var from := m.blockOffset - block.metadata.blockOffset;
    block.data[from..from + m.blockLength]
  }

  lemma SliceWithin(content: Bytes, at: nat, data: Bytes, from: nat, got: Bytes)
    requires SliceIs(content, at, data) && from + |got| <= |data| && SliceIs(content, at + from, got)
    ensures data[from..from + |got|] == got
  {
    SliceByIndex(content, at, data);
    SliceByIndex(content, at + from, got);
    forall i | 0 <= i < |got|
      ensures data[from + i] == got[i]
    {
      assert content[at + (from + i)] == data[from + i];
    }
  }

  /** A finished read of a block that lies in one file delivers what is there. */
  lemma FinishedReadSees(d: Disk, j: Job, f: FileEntry)
    requires JobSound(d, j) && PartsFine(d, j) && TorrentsOk(d) && Finalize(j).BlockRead?
    requires Placed(d.torrents, j.torrent, j.metadata, f)
    ensures var block := Finalize(j).block;
            && block.metadata == j.metadata && |block.data| == j.metadata.blockLength
            && SliceIs(d.files.At(f.id), At(d.torrents[j.torrent], j.metadata, f), block.data)
  {
    hide SliceIs, TorrentFile.FilesForBlock, WellLaid, MessageOk;
    WindowExact(d.torrents[j.torrent], j.metadata);
    assert IsExact(d.torrents[j.torrent], j.metadata, f);
    assert |j.parts| == 1;
    assert PartFine(j.write, j.parts[0], d.files.At(j.parts[0].file));
  }

  /** A finished read agrees with everything in the log. */
  lemma FinishedReadAgrees(s: Sys, j: Job, i: nat, f: FileEntry)
    requires JobSound(s.disk, j) && PartsFine(s.disk, j) && TorrentsOk(s.disk) && LogHolds(s)
    requires i < |s.log| && s.log[i].torrent == j.torrent
    requires Finalize(j).BlockRead? && Within(j.metadata, s.log[i].block.metadata)
    requires Placed(s.disk.torrents, j.torrent, s.log[i].block.metadata, f)
    ensures s.log[i].block.metadata.blockLength <= |s.log[i].block.data|
    ensures Finalize(j).block == Block(j.metadata, Cut(s.log[i].block, j.metadata))
  {
    hide JobSound, PartsFine, TorrentsOk, SliceIs, Finalize;
    var t, block := s.disk.torrents[j.torrent], s.log[i].block;
    assert Stored(s.disk.files.At(f.id), t, block, f);
    hide LogHolds;
    PartOfPlaced(t, j.metadata, block.metadata, f);
    FinishedReadSees(s.disk, j, f);
    ReadAgrees(s.disk.files.At(f.id), t.StartOf(block.metadata) - f.offset, block, j.metadata, Finalize(j).block.data);
  }

  lemma ReadAgrees(content: Bytes, at: nat, block: Block, m: BlockMetadata, got: Bytes)
    requires Within(m, block.metadata) && block.metadata.blockLength <= |block.data| && |got| == m.blockLength
    requires SliceIs(content, at, block.data[..block.metadata.blockLength])
    requires SliceIs(content, at + (m.blockOffset - block.metadata.blockOffset), got)
    ensures got == Cut(block, m)
  {
    hide SliceIs;
    var data, from := block.data[..block.metadata.blockLength], m.blockOffset - block.metadata.blockOffset;
    SliceWithin(content, at, data, from, got);
    assert data[from..from + |got|] == block.data[from..from + |got|];
  }

  lemma PartOfPlaced(t: TorrentFile, m: BlockMetadata, n: BlockMetadata, f: FileEntry)
    requires Within(m, n) && t.InPiece(n) && t.Contains(f, n)
    ensures t.InPiece(m) && t.Contains(f, m)
    ensures t.StartOf(m) == t.StartOf(n) + (m.blockOffset - n.blockOffset)
  {
  }

  /** A read agrees with everything that has been reported written so far. */
  lemma ReadSeesLog(s: Sys, e: Event, i: nat, f: FileEntry)
    requires SysInv(s) && Allowed(s, e) && i < |s.log|
    requires Next(s, e).1.Answer? && Next(s, e).1.out.BlockRead?
    requires var out := Next(s, e).1.out;
             && out.torrent == s.log[i].torrent && Within(out.block.metadata, s.log[i].block.metadata)
             && Placed(s.disk.torrents, out.torrent, s.log[i].block.metadata, f)
    ensures var out := Next(s, e).1.out;
            && s.log[i].block.metadata.blockLength <= |s.log[i].block.data|
            && out.block.data == Cut(s.log[i].block, out.block.metadata)
  {
    hide PollParts, Step, Disk.PollJob, JobSound, PartsFine, Finalize, LogHolds, Placed, SysInv, Calm, TorrentsOk,
      Exclusive, JobClear, SmoothJob;
    var d := s.disk;
    ReportsComeFromJobs(d, e);
    ActiveFine(s, e.k);
    CalmSmooth(d, e.k, e.ios);
    PollShape(d, e.k, e.ios);
    ThisJobFine(d, e.k, e.ios);
    PolledIsSound(d, e.k, e.ios);
    PolledLogHolds(s, e.k, e.ios);
    var p := Polled(d, e.k, e.ios);
    TorrentsFrame(d, p);
    JobStaysSound(d, p, p.active[e.k]);
    SoundIsSituated(p, p.active[e.k]);
    FinishedFits(p, p.active[e.k]);
    FinishedReadAgrees(Sys(p, s.log), p.active[e.k], i, f);
  }

  /** Read after write: once a piece is reported written, every later successful read of a block inside it
      returns exactly the bytes written there, whatever happened in between. */
  lemma ReadAfterWrite(s: Sys, es: seq<Event>, i: nat, j: nat, f: FileEntry)
    requires SysInv(s) && AllowedRun(s, es) && i < j < |es|
    requires ResultOf(s, es, i).Answer? && ResultOf(s, es, i).out.PieceWritten?
    requires ResultOf(s, es, j).Answer? && ResultOf(s, es, j).out.BlockRead?
    requires var (written, read) := (ResultOf(s, es, i).out, ResultOf(s, es, j).out);
             && written.torrent == read.torrent && Within(read.block.metadata, written.block.metadata)
             && Placed(StateAt(s.disk, es, i).torrents, written.torrent, written.block.metadata, f)
    ensures var (written, read) := (ResultOf(s, es, i).out, ResultOf(s, es, j).out);
            && written.block.metadata.blockLength <= |written.block.data|
            && read.block.data == Cut(written.block, read.block.metadata)
  {
    hide Run, Step, Allowed, SysInv, Reports;
    var a, b, c := Before(s, es, i), Before(s, es, i + 1), Before(s, es, j);
    var written := ResultOf(s, es, i).out;
    BeforeNext(s, es, i);
    BeforeNext(s, es, j);
    RunExtends(s, es, i, i + 1);
    RunExtends(s, es, i + 1, j);
    InvariantOverRuns(s, es, j);
    hide Before, ResultOf;
    assert b.log[|a.log|] == Logged(written.torrent, written.block);
    assert c.log[..|b.log|][|a.log|] == c.log[|a.log|];
    assert Placed(c.disk.torrents, written.torrent, written.block.metadata, f);
    ReadSeesLog(c, es[j], |a.log|, f);
  }

  /** In a torrent of one file every non-empty block inside the content lies in that file. */
  lemma SingleFileIsPlaced(torrents: map<TorrentId, TorrentFile>, id: TorrentId, size: nat, m: BlockMetadata)
    requires id in torrents && torrents[id].files == Entries(id, [size], 0, 0)
    requires torrents[id].InPiece(m) && m.blockLength > 0
    ensures var f := FileEntry(FileId(id, 0), 0, size);
            Placed(torrents, id, m, f) <==> torrents[id].EndOf(m) <= size
  {
    var f := FileEntry(FileId(id, 0), 0, size);
    assert Entries(id, [size], 0, 0) == [f] + Entries(id, [size][1..], 1, size);
    assert f in torrents[id].files;
  }
}
