/** Exactly when the disk manager panics: on a block without a file, on a fragment that is not inside its block, and
    on a window longer than the block written into it (src/disk/manager.rs, src/disk/block.rs). */
module DiskPanics {
  import opened Collections
  import opened Messages
  import opened DiskFiles
  import opened DiskJobs
  import opened DiskManagers
  import opened DiskRuns
  import opened Provenance

  // ---------------------------------------------------------------- polling

  function IoOf(ios: seq<FileIo>, i: nat): FileIo {
    if i < |ios| then ios[i] else NO_IO
  }

  function Rest(ios: seq<FileIo>): (r: seq<FileIo>)
    ensures forall i :: 0 <= i ==> IoOf(r, i) == IoOf(ios, i + 1)
  {
    if ios == [] then [] else ios[1..]
  }

  /** The poll of a part gets as far as the transfer. */
  predicate AtTransfer(p: Part, io: FileIo) {
    p.phase.Process? || (p.phase.Seek? && io.seek.SeekDone?)
  }

  predicate PartPanics(p: Part, io: FileIo) {
    AtTransfer(p, io) && !(p.moved <= p.window.length <= |p.block|)
  }

  /** A poll of a write panics if and only if it gets to a transfer for which the block is too short. */
  lemma WritePanicExact(p: Part, content: Bytes, io: FileIo)
    ensures PollWrite(p, content, io).Panicked? <==> PartPanics(p, io)
  {
    hide WriteAt;
  }

  ghost predicate AnyPanics(parts: seq<Part>, ios: seq<FileIo>) {
    exists i :: 0 <= i < |parts| && PartPanics(parts[i], IoOf(ios, i))
  }

  lemma AnyPanicsSplit(parts: seq<Part>, ios: seq<FileIo>)
    requires parts != []
    ensures AnyPanics(parts, ios) <==> PartPanics(parts[0], IoOf(ios, 0)) || AnyPanics(parts[1..], Rest(ios))
  {
    hide PartPanics, Rest;
    var rest, more := parts[1..], Rest(ios);
    assert forall i :: 0 <= i < |rest| ==> rest[i] == parts[i + 1] && IoOf(more, i) == IoOf(ios, i + 1);
    if i :| 0 <= i < |parts| && PartPanics(parts[i], IoOf(ios, i)) {
      if i > 0 {
        assert PartPanics(rest[i - 1], IoOf(more, i - 1));
      }
    }
    if i :| 0 <= i < |rest| && PartPanics(rest[i], IoOf(more, i)) {
      assert PartPanics(parts[i + 1], IoOf(ios, i + 1));
    }
  }

  /** A job panics if and only if it writes and one of its parts does. */
  lemma {:induction false} JobPanicExact(write: bool, parts: seq<Part>, files: Files, ios: seq<FileIo>)
    ensures PollParts(write, parts, files, ios).JobPanicked? <==> write && AnyPanics(parts, ios)
    decreases |parts|
  {
    hide PollRead, PollWrite, PartPanics, AnyPanics;
    if parts == [] {
      NothingPanics(ios);
    } else {
      AnyPanicsSplit(parts, ios);
      var content := files.At(parts[0].file);
      WritePanicExact(parts[0], content, IoOf(ios, 0));
      var q := PollPart(write, parts[0], content, IoOf(ios, 0));
      if q.PartPoll? {
        JobPanicExact(write, parts[1..], files.Put(q.part.file, q.content), Rest(ios));
      }
    }
  }

  lemma NothingPanics(ios: seq<FileIo>)
    ensures !AnyPanics([], ios)
  {
  }

  // ---------------------------------------------------------------- starting

  /** How far the fragments before `k` reach: the sum of their window lengths. */
  function Reach(files: seq<(FileEntry, FileWindow)>, k: nat): nat
    requires k <= |files|
  {
    if k == 0 then 0 else Reach(files, k - 1) + files[k - 1].1.length
  }

  /** The slice of the block for file `k` starts behind its end, or ends behind the end of the block. */
  predicate BadSlice(files: seq<(FileEntry, FileWindow)>, k: nat, size: nat)
    requires k < |files|
  {
    !(Reach(files, k) <= files[k].1.length <= size)
  }

  lemma {:induction false} FragmentsExact(grabs: seq<Grab>, files: seq<(FileEntry, FileWindow)>, data: Bytes, k: nat)
    requires Complete(grabs, files) && k <= |files|
    ensures Fragments(grabs[k..], data, Reach(files, k)).None?
         <==> exists i :: k <= i < |files| && BadSlice(files, i, |data|)
    decreases |files| - k
  {
    if k < |files| {
      assert grabs[k..][1..] == grabs[k + 1..] && grabs[k..][0] == grabs[k];
      assert Reach(files, k + 1) == Reach(files, k) + grabs[k].window.length;
      FragmentsExact(grabs, files, data, k + 1);
      hide Fragments;
      if !BadSlice(files, k, |data|) {
        if i :| k <= i < |files| && BadSlice(files, i, |data|) {
          assert i >= k + 1;
        }
      }
    }
  }

  /** Starting a request panics: no file is claimed for the block, or the block is to be cut up for several files,
      all at hand, and a slice is bad. */
  ghost predicate StartPanics(d: Disk, r: Request, opens: seq<OpenIo>) {
    && (r.WriteRequest? ==> d.IsGoodPiece(r.torrent, r.block)) && r.torrent in d.torrents
    && d.torrents[r.torrent].InPiece(KeyOf(r).metadata)
    && var files := d.torrents[r.torrent].FilesForBlock(KeyOf(r).metadata).value;
       || files == []
       || (r.WriteRequest? && |files| > 1 && AcquireFiles(d.cache, files, opens).FilesReady?
           && exists k :: 0 <= k < |files| && BadSlice(files, k, |r.block.data|))
  }

  lemma StartPanicExact(d: Disk, r: Request, opens: seq<OpenIo>)
    ensures d.Start(r, opens).1.Crash? <==> StartPanics(d, r, opens)
  {
    hide AcquireFiles, Fragments, ReadParts, TorrentFile.Scan, Disk.IsGoodPiece, Complete, BadSlice;
    if r.torrent in d.torrents && d.torrents[r.torrent].InPiece(KeyOf(r).metadata) {
      var files := d.torrents[r.torrent].FilesForBlock(KeyOf(r).metadata).value;
      AcquireComplete(d.cache, files, opens);
      var acquired := AcquireFiles(d.cache, files, opens);
      if acquired.FilesReady? && r.WriteRequest? {
        SameNumber(acquired.grabs, files);
        FragmentsExact(acquired.grabs, files, r.block.data, 0);
        assert acquired.grabs[0..] == acquired.grabs;
      }
    }
  }

  lemma SameNumber(grabs: seq<Grab>, files: seq<(FileEntry, FileWindow)>)
    requires Complete(grabs, files)
    ensures |grabs| == |files|
  {
  }

  // ---------------------------------------------------------------- a step

  /** What makes a step panic, as a caller or the file system could see it coming. */
  ghost predicate Panics(d: Disk, e: Event) {
    match e
    case Enqueue(_) => false
    case PollJob(k, ios) =>
      && k < |d.active| && d.active[k].write
      && exists i :: 0 <= i < |d.active[k].parts| && TooShort(d.active[k].parts[i], IoOf(ios, i))
    case Pop(opens) =>
      && d.queue != [] && d.queue[0].Submit?
      && StartPanics(d.(queue := d.queue[1..]), d.queue[0].request, opens)
  }

  /** The window is longer than the block that is about to be written into it. */
  predicate TooShort(p: Part, io: FileIo) {
    AtTransfer(p, io) && |p.block| < p.window.length
  }

  /** In a sound manager a step panics if and only if its guard says so. */
  lemma StepPanicExact(d: Disk, e: Event)
    requires Sound(d)
    ensures Step(d, e).1.Crash? <==> Panics(d, e)
  {
    match e
    case Enqueue(_) =>
    case PollJob(k, ios) =>
      if k < |d.active| {
        hide Disk.PollJob, PollParts;
        PollShape(d, k, ios);
        JobPanicExact(d.active[k].write, d.active[k].parts, d.files, ios);
        CountedPanics(d, d.active[k], ios);
      }
    case Pop(opens) =>
      if d.queue != [] {
        hide Disk.Start, StartPanics;
        if d.queue[0].Submit? {
          StartPanicExact(d.(queue := d.queue[1..]), d.queue[0].request, opens);
        }
      }
  }

  lemma CountedPanics(d: Disk, j: Job, ios: seq<FileIo>)
    requires JobSound(d, j)
    ensures j.write ==>
              (AnyPanics(j.parts, ios) <==> exists i :: 0 <= i < |j.parts| && TooShort(j.parts[i], IoOf(ios, i)))
  {
    hide Situated, AtTransfer, IoOf;
    assert j.write ==> forall i :: 0 <= i < |j.parts| ==>
             Counted(j.parts[i]) && (PartPanics(j.parts[i], IoOf(ios, i)) <==> TooShort(j.parts[i], IoOf(ios, i)));
    if i :| 0 <= i < |j.parts| && PartPanics(j.parts[i], IoOf(ios, i)) {
      assert j.write ==> TooShort(j.parts[i], IoOf(ios, i));
    }
    if i :| 0 <= i < |j.parts| && TooShort(j.parts[i], IoOf(ios, i)) {
      assert j.write ==> PartPanics(j.parts[i], IoOf(ios, i));
    }
  }

  /** A run of a new manager is free of panics if and only if no step of it meets a guard. */
  lemma NoCrashExact(d: Disk, es: seq<Event>)
    requires Sound(d) && PossibleRun(es)
    ensures NoCrash(Run(d, es).1) <==> forall i :: 0 <= i < |es| ==> !Panics(StateAt(d, es, i), es[i])
  {
    hide Sound, Step, Run, Panics;
    forall i | 0 <= i < |es|
      ensures Run(d, es).1[i].Crash? <==> Panics(StateAt(d, es, i), es[i])
    {
      SoundOverRuns(d, es, i);
      RunStep(d, es, i);
      StepPanicExact(StateAt(d, es, i), es[i]);
    }
  }
}
