/** While the cache has room and no transfer goes astray, every job is on track in its own files, and what is
    reported written is in its window (src/disk/manager.rs, src/disk/block.rs). */
module Tracks {
  import opened Collections
  import opened Messages
  import opened Blocks
  import opened DiskFiles
  import opened DiskJobs
  import opened Transfers
  import opened DiskManagers
  import opened DiskRuns
  import opened Provenance
  import opened DiskPanics
  import opened Exclusivity

  ghost predicate PartFine(write: bool, p: Part, content: Bytes) {
    if write then WriteOnTrack(p, content) && WriteBounded(p) else ReadOnTrack(p, content)
  }

  ghost predicate PartsFine(d: Disk, j: Job) {
    forall i :: 0 <= i < |j.parts| ==> PartFine(j.write, j.parts[i], d.files.At(j.parts[i].file))
  }

  ghost predicate TrackInv(d: Disk) {
    Exclusive(d) && Sound(d) && forall k :: 0 <= k < |d.active| ==> PartsFine(d, d.active[k])
  }

  /** No first transfer after a seek goes astray. */
  predicate Smooth(write: bool, p: Part, content: Bytes, io: FileIo) {
    if write then !WriteAstray(p, io) else !ReadAstray(p, content, io)
  }

  predicate SmoothJob(d: Disk, j: Job, ios: seq<FileIo>) {
    forall i :: 0 <= i < |j.parts| ==> Smooth(j.write, j.parts[i], d.files.At(j.parts[i].file), IoOf(ios, i))
  }

  /** A step with room in the cache and no transfer astray that does not panic. */
  ghost predicate Calm(d: Disk, e: Event) {
    && Possible(e) && Roomy(d, e) && !Panics(d, e)
    && (e.PollJob? && e.k < |d.active| ==> SmoothJob(d, d.active[e.k], e.ios))
  }

  lemma CalmNoCrash(d: Disk, e: Event)
    requires Sound(d) && Calm(d, e)
    ensures !Step(d, e).1.Crash?
  {
    hide Sound, Panics, Step, Roomy, SmoothJob;
    StepPanicExact(d, e);
  }

  // ---------------------------------------------------------------- polling the parts of a job

  ghost predicate FilesDiffer(parts: seq<Part>) {
    forall i, j :: 0 <= i < j < |parts| ==> parts[i].file != parts[j].file
  }

  /** Part `i` is polled on its own file. */
  ghost predicate PolledAlone(write: bool, parts: seq<Part>, files: Files, ios: seq<FileIo>, i: nat, parts': seq<Part>,
                              files': Files)
    requires i < |parts| == |parts'|
  {
    var q := PollPart(write, parts[i], files.At(parts[i].file), IoOf(ios, i));
    q.PartPoll? && q.part == parts'[i] && q.content == files'.At(parts[i].file)
  }

  lemma PollFirst(write: bool, parts: seq<Part>, files: Files, ios: seq<FileIo>)
    requires parts != [] && PollParts(write, parts, files, ios).JobPoll?
    ensures var q := PollPart(write, parts[0], files.At(parts[0].file), IoOf(ios, 0));
            && q.PartPoll? && q.part.file == parts[0].file
            && var r := PollParts(write, parts, files, ios);
               var r1 := PollParts(write, parts[1..], files.Put(parts[0].file, q.content), Rest(ios));
               r1.JobPoll? && r.parts == [q.part] + r1.parts && r.files == r1.files
  {
    SamePart(write, parts[0], files.At(parts[0].file), IoOf(ios, 0));
    hide PollPart;
  }

  /** Each part is polled on its own file, and files the job does not hold stay as they are. */
  lemma {:induction false} PollPartsEffect(write: bool, parts: seq<Part>, files: Files, ios: seq<FileIo>)
    requires FilesDiffer(parts) && PollParts(write, parts, files, ios).JobPoll?
    ensures var r := PollParts(write, parts, files, ios);
            && |r.parts| == |parts|
            && (forall i :: 0 <= i < |parts| ==> PolledAlone(write, parts, files, ios, i, r.parts, r.files))
            && (forall id :: (forall i :: 0 <= i < |parts| ==> parts[i].file != id) ==> r.files.At(id) == files.At(id))
    decreases |parts|
  {
    hide PollPart, PollParts;
    if parts == [] {
      NoParts(write, files, ios);
    } else {
      PollFirst(write, parts, files, ios);
      var q := PollPart(write, parts[0], files.At(parts[0].file), IoOf(ios, 0));
      var rest, files1, more := parts[1..], files.Put(parts[0].file, q.content), Rest(ios);
      PollPartsEffect(write, rest, files1, more);
      var r, r1 := PollParts(write, parts, files, ios), PollParts(write, rest, files1, more);
      assert forall i :: 0 <= i < |rest| ==> rest[i] == parts[i + 1];
      assert r.files.At(parts[0].file) == files1.At(parts[0].file);
      forall i | 0 < i < |parts|
        ensures PolledAlone(write, parts, files, ios, i, r.parts, r.files)
      {
        assert PolledAlone(write, rest, files1, more, i - 1, r1.parts, r1.files);
        assert rest[i - 1] == parts[i] && files1.At(parts[i].file) == files.At(parts[i].file);
      }
      forall id | forall i :: 0 <= i < |parts| ==> parts[i].file != id
        ensures r.files.At(id) == files.At(id)
      {
        assert parts[0].file != id;
      }
    }
  }

  lemma NoParts(write: bool, files: Files, ios: seq<FileIo>)
    ensures PollParts(write, [], files, ios) == JobPoll([], files, true)
  {
  }

  lemma PartStaysFine(write: bool, p: Part, content: Bytes, io: FileIo)
    requires PartFine(write, p, content) && Smooth(write, p, content, io) && PollPart(write, p, content, io).PartPoll?
    ensures var q := PollPart(write, p, content, io); PartFine(write, q.part, q.content)
  {
    hide PollWrite, PollRead, WriteAstray, ReadAstray, WriteOnTrack, ReadOnTrack, WriteBounded;
    if write {
      WriteStaysOnTrack(p, content, io);
      WriteStaysBounded(p, content, io);
    } else {
      ReadStaysOnTrack(p, content, io);
    }
  }

  /** The parts of one active job are on different files. */
  lemma JobFilesDiffer(d: Disk, k: nat)
    requires Exclusive(d) && k < |d.active|
    ensures FilesDiffer(d.active[k].parts)
  {
    hide Sum, CacheOk;
    var parts := d.active[k].parts;
    SumMember(d.active, HeldBy, k);
    forall i, j | 0 <= i < j < |parts|
      ensures parts[i].file != parts[j].file
    {
      SumPair(parts, PartFile, i, j);
      var both := PartFile(parts[i]) + PartFile(parts[j]);
      assert both[parts[i].file] <= Held(d)[parts[i].file] <= 1;
    }
  }

  // ---------------------------------------------------------------- a poll step

  /** A smooth poll of a part that was fine and stays so. */
  ghost predicate PartStep(write: bool, p: Part, before: Bytes, io: FileIo, q: Part, after: Bytes) {
    && q.file == p.file && q.window == p.window && (write ==> q.block == p.block)
    && Smooth(write, p, before, io) && PartFine(write, p, before) && PartFine(write, q, after)
    && var r := PollPart(write, p, before, io); r.PartPoll? && r.part == q && r.content == after
  }

  /** What a poll does to part `i` of the job. */
  lemma PartAfterPoll(d: Disk, k: nat, ios: seq<FileIo>, i: nat)
    requires Exclusive(d) && k < |d.active| && PartsFine(d, d.active[k])
    requires i < |d.active[k].parts| && SmoothJob(d, d.active[k], ios)
    requires PollParts(d.active[k].write, d.active[k].parts, d.files, ios).JobPoll?
    ensures var j := d.active[k];
            var r := PollParts(j.write, j.parts, d.files, ios);
            && |r.parts| == |j.parts|
            && PartStep(j.write, j.parts[i], d.files.At(j.parts[i].file), IoOf(ios, i), r.parts[i],
                        r.files.At(j.parts[i].file))
  {
    hide PollParts, PollPart, PartFine, Smooth, Exclusive;
    var j := d.active[k];
    JobFilesDiffer(d, k);
    PollPartsEffect(j.write, j.parts, d.files, ios);
    var r := PollParts(j.write, j.parts, d.files, ios);
    var content := d.files.At(j.parts[i].file);
    assert PolledAlone(j.write, j.parts, d.files, ios, i, r.parts, r.files);
    SamePart(j.write, j.parts[i], content, IoOf(ios, i));
    PartStaysFine(j.write, j.parts[i], content, IoOf(ios, i));
  }

  lemma ThisJobFine(d: Disk, k: nat, ios: seq<FileIo>)
    requires Exclusive(d) && k < |d.active| && PartsFine(d, d.active[k]) && SmoothJob(d, d.active[k], ios)
    requires PollParts(d.active[k].write, d.active[k].parts, d.files, ios).JobPoll?
    ensures PartsFine(Polled(d, k, ios), Polled(d, k, ios).active[k])
  {
    hide PollParts, PollPart, PartFine, Smooth, SmoothJob, Exclusive;
    var j, d' := d.active[k], Polled(d, k, ios);
    SameParts(j.write, j.parts, d.files, ios);
    forall i | 0 <= i < |j.parts|
      ensures PartFine(j.write, d'.active[k].parts[i], d'.files.At(d'.active[k].parts[i].file))
    {
      PartAfterPoll(d, k, ios, i);
    }
  }

  /** No other job holds a file of job `k`. */
  lemma ElsewhereFiles(d: Disk, k: nat, i: nat, x: nat, y: nat)
    requires Exclusive(d) && k < |d.active| && i < |d.active| && i != k
    requires x < |d.active[i].parts| && y < |d.active[k].parts|
    ensures d.active[i].parts[x].file != d.active[k].parts[y].file
  {
    hide Exclusive;
    if i < k {
      JobsAreDisjoint(d, i, k, d.active[i].parts[x], d.active[k].parts[y]);
    } else {
      JobsAreDisjoint(d, k, i, d.active[k].parts[y], d.active[i].parts[x]);
    }
  }

  lemma OtherJobsFine(d: Disk, k: nat, ios: seq<FileIo>, i: nat)
    requires Exclusive(d) && k < |d.active| && i < |d.active| && i != k && PartsFine(d, d.active[i])
    requires PollParts(d.active[k].write, d.active[k].parts, d.files, ios).JobPoll?
    ensures PartsFine(Polled(d, k, ios), d.active[i])
  {
    hide PollParts, PartFine, Exclusive;
    var j, other := d.active[k], d.active[i];
    JobFilesDiffer(d, k);
    PollPartsEffect(j.write, j.parts, d.files, ios);
    var d' := Polled(d, k, ios);
    forall x | 0 <= x < |other.parts|
      ensures d'.files.At(other.parts[x].file) == d.files.At(other.parts[x].file)
    {
      forall y | 0 <= y < |j.parts|
        ensures j.parts[y].file != other.parts[x].file
      {
        ElsewhereFiles(d, k, i, x, y);
      }
    }
  }

  lemma PartsFrame(a: Disk, b: Disk, j: Job)
    requires a.files == b.files
    ensures PartsFine(a, j) <==> PartsFine(b, j)
  {
  }

  lemma PollKeepsTrack(d: Disk, k: nat, ios: seq<FileIo>)
    requires TrackInv(d) && k < |d.active| && SmoothJob(d, d.active[k], ios) && !d.PollJob(k, ios).1.Crash?
    ensures var d' := d.PollJob(k, ios).0; forall x :: 0 <= x < |d'.active| ==> PartsFine(d', d'.active[x])
  {
    hide Disk.PollJob, PollParts, PartsFine, Exclusive, Sound, SmoothJob, Finalize;
    PollShape(d, k, ios);
    var d', p := d.PollJob(k, ios).0, Polled(d, k, ios);
    forall x | 0 <= x < |d'.active|
      ensures PartsFine(d', d'.active[x])
    {
      if x < |d.active| - 1 {
        var i := SwapRemoveElement(d.active, k, x);
        OtherJobsFine(d, k, ios, i);
        PartsFrame(p, d', d.active[i]);
      } else {
        ThisJobFine(d, k, ios);
        PartsFrame(p, d', p.active[k]);
      }
    }
  }

  lemma FreshIsFine(d: Disk, r: Request, j: Job)
    requires Fresh(d, r, j)
    ensures PartsFine(d, j)
  {
    hide Situated, Disk.IsGoodPiece;
  }

  lemma PopKeepsTrack(d: Disk, opens: seq<OpenIo>)
    requires TrackInv(d) && d.queue != []
    ensures var d' := d.Pop(opens).0; forall x :: 0 <= x < |d'.active| ==> PartsFine(d', d'.active[x])
  {
    hide Disk.Pop, PartsFine, Exclusive, Sound, Fresh;
    PopShape(d, opens);
    var d' := d.Pop(opens).0;
    if d'.active != d.active {
      var j :| d'.active == d.active + [j] && Fresh(d, d.queue[0].request, j);
      FreshIsFine(d, d.queue[0].request, j);
    }
    forall x | 0 <= x < |d'.active|
      ensures PartsFine(d', d'.active[x])
    {
      PartsFrame(d, d', d'.active[x]);
    }
  }

  lemma EnqueueKeepsTrack(d: Disk, m: Message)
    requires TrackInv(d)
    ensures var d' := d.Enqueue(m); forall x :: 0 <= x < |d'.active| ==> PartsFine(d', d'.active[x])
  {
    hide PartFine, Exclusive, Sound;
  }

  /** Every calm step keeps every job on track. */
  lemma CalmKeeps(d: Disk, e: Event)
    requires TrackInv(d) && Calm(d, e)
    ensures TrackInv(Step(d, e).0) && !Step(d, e).1.Crash?
  {
    CalmNoCrash(d, e);
    CalmKeepsExclusive(d, e);
    hide Disk.PollJob, Disk.Pop, PartsFine, Exclusive, Sound, SmoothJob, Roomy, Panics;
    StepKeepsSound(d, e);
    match e
    case Enqueue(m) => EnqueueKeepsTrack(d, m);
    case PollJob(k, ios) =>
      if k < |d.active| {
        PollKeepsTrack(d, k, ios);
      }
    case Pop(opens) =>
      if d.queue != [] {
        PopKeepsTrack(d, opens);
      }
  }

  lemma CalmKeepsExclusive(d: Disk, e: Event)
    requires TrackInv(d) && Calm(d, e) && !Step(d, e).1.Crash?
    ensures Exclusive(Step(d, e).0)
  {
    hide Exclusive, Step, Roomy, SmoothJob, PartsFine, JobSound, TorrentsOk, Panics, Possible;
    StepKeeps(d, e);
  }

  ghost predicate CalmRun(d: Disk, es: seq<Event>) {
    forall i :: 0 <= i < |es| ==> Calm(StateAt(d, es, i), es[i])
  }

  lemma {:induction false} TrackOverRuns(d: Disk, es: seq<Event>, i: nat)
    requires TrackInv(d) && CalmRun(d, es) && i <= |es|
    ensures TrackInv(StateAt(d, es, i))
  {
    hide TrackInv, Calm, Step, Run;
    if i == 0 {
      assert es[..0] == [];
      EmptyRun(d);
    } else {
      TrackOverRuns(d, es, i - 1);
      RunStep(d, es, i - 1);
      CalmKeeps(StateAt(d, es, i - 1), es[i - 1]);
    }
  }

  lemma NewDiskIsOnTrack(capacity: nat, files: Files, sha: Bytes -> Digest)
    ensures TrackInv(NewDisk(capacity, files, sha))
  {
  }

  // ---------------------------------------------------------------- what is in the window

  /** The window of the block, which is the only one, holds its bytes. */
  ghost predicate WindowHolds(d: Disk, t: TorrentId, block: Block) {
    && t in d.torrents
    && var files := d.torrents[t].FilesForBlock(block.metadata);
       && files.Some? && |files.value| == 1
       && var (f, w) := files.value[0];
          w.length > 0 ==> w.length <= |block.data| && SliceIs(d.files.At(f.id), w.offset, block.data[..w.length])
  }

  lemma FinishedHolds(d: Disk, j: Job)
    requires JobSound(d, j) && PartsFine(d, j) && TorrentsOk(d) && Finalize(j).PieceWritten?
    ensures WindowHolds(d, Finalize(j).torrent, Finalize(j).block)
  {
    FinishedIsGood(d, j);
    AnswerNamesTorrent(d, j);
    hide TorrentFile.FilesForBlock, Disk.IsGoodPiece, TorrentsOk, WellLaid;
    assert PartFine(j.write, j.parts[0], d.files.At(j.parts[0].file));
  }

  lemma WindowFrame(a: Disk, b: Disk, t: TorrentId, block: Block)
    requires a.torrents == b.torrents && a.files == b.files
    ensures WindowHolds(a, t, block) <==> WindowHolds(b, t, block)
  {
  }

  lemma WrittenHolds(d: Disk, e: Event)
    requires TrackInv(d) && Calm(d, e) && Step(d, e).1.Answer? && Step(d, e).1.out.PieceWritten?
    ensures var (d', r) := Step(d, e); WindowHolds(d', r.out.torrent, r.out.block)
  {
    hide Step, Disk.PollJob, PollParts, JobSound, TorrentsOk, PartsFine, Exclusive, Panics, SmoothJob,
      WindowHolds, Roomy;
    ReportsComeFromJobs(d, e);
    PollShape(d, e.k, e.ios);
    PolledIsSound(d, e.k, e.ios);
    ThisJobFine(d, e.k, e.ios);
    var p := Polled(d, e.k, e.ios);
    JobStaysSound(d, p, p.active[e.k]);
    TorrentsFrame(d, p);
    FinishedHolds(p, p.active[e.k]);
    WindowFrame(p, Step(d, e).0, Finalize(p.active[e.k]).torrent, Finalize(p.active[e.k]).block);
  }

  lemma TorrentsFrame(a: Disk, b: Disk)
    requires a.torrents == b.torrents && a.queue == b.queue && TorrentsOk(a)
    ensures TorrentsOk(b)
  {
  }

  /** In every calm run of a new manager, the whole window of a piece that is reported written holds its bytes. It
      does not matter what is written over what: this is about the moment of the report. */
  lemma WrittenIsInItsWindow(capacity: nat, files: Files, sha: Bytes -> Digest, es: seq<Event>, i: nat)
    requires var d := NewDisk(capacity, files, sha);
             && CalmRun(d, es) && i < |es|
             && Run(d, es).1[i].Answer? && Run(d, es).1[i].out.PieceWritten?
    ensures var d := NewDisk(capacity, files, sha);
            var out := Run(d, es).1[i].out;
            WindowHolds(StateAt(d, es, i + 1), out.torrent, out.block)
  {
    hide TrackInv, Calm, Step, Run, WindowHolds;
    var d := NewDisk(capacity, files, sha);
    NewDiskIsOnTrack(capacity, files, sha);
    TrackOverRuns(d, es, i);
    RunStep(d, es, i);
    WrittenHolds(StateAt(d, es, i), es[i]);
  }
}
