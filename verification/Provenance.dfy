/** Where jobs and answers come from, in every run of the disk manager whatsoever: a job works on the windows of
    its block, a write had the right hash, and an answer fits its request (src/disk/manager.rs). */
module Provenance {
  import opened Collections
  import opened Messages
  import opened Blocks
  import opened DiskFiles
  import opened DiskJobs
  import opened DiskManagers
  import opened DiskRuns

  // ---------------------------------------------------------------- what callers can do

  /** No byte vector is this long. */
  const VEC_LIMIT: nat := 0x8000_0000_0000_0000

  /** Torrents come from `TorrentFile::new`, and the data of a block is a byte vector. */
  ghost predicate MessageOk(m: Message) {
    && (m.AddTorrent? ==> WellLaid(m.torrent))
    && (m.Submit? && m.request.WriteRequest? ==> |m.request.block.data| < VEC_LIMIT)
  }

  ghost predicate Possible(e: Event) {
    e.Enqueue? ==> MessageOk(e.message)
  }

  /** Torrents are filed under their own identifier, and their files do not overlap. */
  ghost predicate TorrentsOk(d: Disk) {
    && (forall t :: t in d.torrents ==> d.torrents[t].id == t && WellLaid(d.torrents[t]))
    && (forall m :: m in d.queue ==> MessageOk(m))
  }

  // ---------------------------------------------------------------- jobs

  /** The parts of a job are the windows that the torrent assigns to its block. */
  ghost predicate Situated(torrents: map<TorrentId, TorrentFile>, j: Job) {
    && j.torrent in torrents && j.parts != []
    && var r := torrents[j.torrent].FilesForBlock(j.metadata);
       && r.Some? && |r.value| == |j.parts|
       && forall i :: 0 <= i < |j.parts| ==>
            j.parts[i].file == r.value[i].0.id && j.parts[i].window == r.value[i].1
  }

  /** No more than the window, and no more than there is, has been written. */
  predicate Counted(p: Part) {
    p.moved <= p.window.length && p.moved <= |p.block| < VEC_LIMIT
  }

  /** A write in one file is of a block with the hash of its piece. */
  ghost predicate WriteSound(d: Disk, j: Job) {
    && (|j.parts| == 1 ==> d.IsGoodPiece(j.torrent, Block(j.metadata, j.parts[0].block)))
    && forall i :: 0 <= i < |j.parts| ==> Counted(j.parts[i])
  }

  ghost predicate JobSound(d: Disk, j: Job) {
    Situated(d.torrents, j) && (j.write ==> WriteSound(d, j))
  }

  ghost predicate Sound(d: Disk) {
    TorrentsOk(d) && forall k :: 0 <= k < |d.active| ==> JobSound(d, d.active[k])
  }

  /** Torrents and the hash stay. */
  ghost predicate Grows(a: Disk, b: Disk) {
    b.sha == a.sha && forall t :: t in a.torrents ==> t in b.torrents && b.torrents[t] == a.torrents[t]
  }

  lemma JobStaysSound(a: Disk, b: Disk, j: Job)
    requires Grows(a, b) && JobSound(a, j)
    ensures JobSound(b, j)
  {
  }

  /** The torrent named in the answer is the torrent of the job. */
  lemma AnswerNamesTorrent(d: Disk, j: Job)
    requires Situated(d.torrents, j) && TorrentsOk(d)
    ensures Finalize(j).torrent == j.torrent
  {
    hide TorrentFile.FilesForBlock;
    if |j.parts| == 1 {
      var t := d.torrents[j.torrent];
      var r := t.FilesForBlock(j.metadata).value;
      FilesDistinct(t, j.metadata);
      assert r[0] in r;
    }
  }

  // ---------------------------------------------------------------- starting a job

  /** Handles that are all ready are those of the files asked for, in order. */
  lemma {:induction false} GatherInOrder(c: Cache, files: seq<(FileEntry, FileWindow)>, opens: seq<OpenIo>,
                                         grabs: seq<Grab>, ready: bool, done: seq<(FileEntry, FileWindow)>)
    requires ready ==> Complete(grabs, done)
    ensures var r := Gather(c, files, opens, grabs, ready);
            r.Gathered? && r.allReady ==> Complete(r.grabs, done + files)
    decreases |files|
  {
    hide Cache.Remove, Cache.Insert;
    if files == [] {
      assert done + files == done;
    } else {
      var (f, window) := files[0];
      var more := if opens == [] then [] else opens[1..];
      var done' := done + [files[0]];
      assert done + files == done' + files[1..];
      if f.id in c.states {
        match c.states[f.id]
        case Ready(cursor) =>
          GatherInOrder(c.Remove(f.id), files[1..], more, grabs + [Grab(f.id, cursor, window)], ready, done');
        case Queued(cursor, queued) =>
          GatherInOrder(c.Remove(f.id), files[1..], more, grabs + [Grab(f.id, cursor, window)],
                        ready && window == queued, done');
        case Busy(w) =>
          GatherInOrder(c.Remove(f.id).Insert(f.id, Busy(w)), files[1..], more, grabs, false, done');
      } else {
        GatherInOrder(c, files[1..], more, grabs + [Grab(f.id, 0, window)], ready, done');
      }
    }
  }

  lemma AcquireComplete(c: Cache, files: seq<(FileEntry, FileWindow)>, opens: seq<OpenIo>)
    ensures var r := AcquireFiles(c, files, opens); r.FilesReady? ==> Complete(r.grabs, files)
  {
    hide Gather, InsertAll;
    GatherInOrder(c, files, opens, [], true, []);
    assert [] + files == files;
  }

  lemma {:induction false} ReadPartsOf(grabs: seq<Grab>)
    ensures |ReadParts(grabs)| == |grabs|
    ensures forall i :: 0 <= i < |grabs| ==>
              ReadParts(grabs)[i] == Part(grabs[i].file, grabs[i].cursor, grabs[i].window, Seek, [], 0)
  {
    if grabs != [] {
      ReadPartsOf(grabs[1..]);
    }
  }

  lemma {:induction false} FragmentsOf(grabs: seq<Grab>, data: Bytes, offset: nat)
    requires Fragments(grabs, data, offset).Some?
    ensures var parts := Fragments(grabs, data, offset).value;
            && |parts| == |grabs|
            && forall i :: 0 <= i < |grabs| ==>
                 parts[i] == WritePart(grabs[i], parts[i].block) && |parts[i].block| <= |data|
    decreases |grabs|
  {
    if grabs != [] {
      FragmentsOf(grabs[1..], data, offset + grabs[0].window.length);
    }
  }

  /** A part that has just been made for a window. */
  predicate FreshPart(write: bool, p: Part, file: FileEntry, window: FileWindow, size: nat) {
    && p.file == file.id && p.window == window && p.phase.Seek? && p.moved == 0
    && if write then |p.block| <= size else p.block == []
  }

  /** A job that has just been made for a request. */
  ghost predicate Fresh(d: Disk, r: Request, j: Job) {
    && j.write == r.WriteRequest? && j.torrent == r.torrent && j.metadata == KeyOf(r).metadata
    && Situated(d.torrents, j)
    && (forall i :: 0 <= i < |j.parts| ==> j.parts[i].phase.Seek? && j.parts[i].moved == 0)
    && (!j.write ==> forall i :: 0 <= i < |j.parts| ==> j.parts[i].block == [])
    && (j.write ==> d.IsGoodPiece(r.torrent, r.block) && (|j.parts| == 1 ==> j.parts[0].block == r.block.data)
                    && forall i :: 0 <= i < |j.parts| ==> |j.parts[i].block| <= |r.block.data|)
  }

  lemma FreshFrame(a: Disk, b: Disk, r: Request, j: Job)
    requires a.torrents == b.torrents && a.sha == b.sha
    ensures Fresh(a, r, j) <==> Fresh(b, r, j)
  {
  }

  ghost predicate Started(d: Disk, d': Disk, r: Request) {
    exists j :: d'.active == d.active + [j] && Fresh(d, r, j)
  }

  /** The parts that `Start` makes, if it makes any. */
  function PartsFor(grabs: seq<Grab>, r: Request): Option<seq<Part>> {
    if r.ReadRequest? then Some(ReadParts(grabs))
    else if |grabs| == 1 then Some([WritePart(grabs[0], r.block.data)])
    else Fragments(grabs, r.block.data, 0)
  }

  lemma FreshParts(grabs: seq<Grab>, files: seq<(FileEntry, FileWindow)>, r: Request)
    requires Complete(grabs, files) && PartsFor(grabs, r).Some?
    ensures var parts := PartsFor(grabs, r).value;
            && |parts| == |files|
            && forall i :: 0 <= i < |files| ==>
                 FreshPart(r.WriteRequest?, parts[i], files[i].0, files[i].1,
                           if r.WriteRequest? then |r.block.data| else 0)
  {
    hide Fragments, ReadParts;
    if r.ReadRequest? {
      ReadPartsOf(grabs);
    } else if |grabs| != 1 {
      FragmentsOf(grabs, r.block.data, 0);
    }
  }

  lemma FreshJob(d: Disk, r: Request, files: seq<(FileEntry, FileWindow)>, grabs: seq<Grab>)
    requires r.torrent in d.torrents && files != []
    requires d.torrents[r.torrent].FilesForBlock(KeyOf(r).metadata) == Some(files)
    requires Complete(grabs, files) && PartsFor(grabs, r).Some?
    requires r.WriteRequest? ==> d.IsGoodPiece(r.torrent, r.block)
    ensures Fresh(d, r, Job(r.WriteRequest?, r.torrent, KeyOf(r).metadata, PartsFor(grabs, r).value))
  {
    hide TorrentFile.FilesForBlock, Fragments, ReadParts, Disk.IsGoodPiece;
    FreshParts(grabs, files, r);
  }

  /** Starting a job changes neither files nor torrents, and adds at most the job of the request. */
  lemma StartShape(d: Disk, r: Request, opens: seq<OpenIo>)
    ensures var d' := d.Start(r, opens).0;
            && d'.files == d.files && d'.sha == d.sha && d'.torrents == d.torrents
            && (d'.active == d.active || Started(d, d', r))
            && (d'.queue == d.queue || d'.queue == d.queue + [Submit(r)])
  {
    hide AcquireFiles, Fragments, ReadParts, TorrentFile.FilesForBlock, Disk.IsGoodPiece, Fresh, Complete;
    if r.torrent in d.torrents && d.torrents[r.torrent].FilesForBlock(KeyOf(r).metadata).Some? {
      var files := d.torrents[r.torrent].FilesForBlock(KeyOf(r).metadata).value;
      AcquireComplete(d.cache, files, opens);
      var acquired := AcquireFiles(d.cache, files, opens);
      var d' := d.Start(r, opens).0;
      if d'.active != d.active {
        FreshJob(d, r, files, acquired.grabs);
        var parts := PartsFor(acquired.grabs, r).value;
        assert d'.active == d.active + [Job(r.WriteRequest?, r.torrent, KeyOf(r).metadata, parts)];
      }
    }
  }

  /** Taking a message off the queue: files stay, torrents only grow, and at most one job is added, for the
      message. */
  lemma PopShape(d: Disk, opens: seq<OpenIo>)
    requires d.queue != []
    ensures var d' := d.Pop(opens).0;
            && d'.files == d.files && Grows(d, d')
            && (d'.active == d.active
                || (d'.torrents == d.torrents && d.queue[0].Submit? && Started(d, d', d.queue[0].request)))
  {
    hide Disk.Start, Fresh;
    var rest := d.(queue := d.queue[1..]);
    if d.queue[0].Submit? {
      var r := d.queue[0].request;
      StartShape(rest, r, opens);
      if j :| rest.Start(r, opens).0.active == rest.active + [j] && Fresh(rest, r, j) {
        FreshFrame(rest, d, r, j);
      }
    }
  }

  lemma PopKeepsTorrents(d: Disk, opens: seq<OpenIo>)
    requires d.queue != [] && TorrentsOk(d)
    ensures TorrentsOk(d.Pop(opens).0)
  {
    hide Disk.Start, Started;
    var rest := d.(queue := d.queue[1..]);
    assert d.queue[0] in d.queue;
    assert forall m :: m in rest.queue ==> m in d.queue;
    if d.queue[0].Submit? {
      StartShape(rest, d.queue[0].request, opens);
    }
  }

  // ---------------------------------------------------------------- polling a job

  /** The manager after the parts of job `k` have been polled, with the job still in place. */
  function Polled(d: Disk, k: nat, ios: seq<FileIo>): Disk
    requires k < |d.active| && PollParts(d.active[k].write, d.active[k].parts, d.files, ios).JobPoll?
  {
    var j := d.active[k];
    var r := PollParts(j.write, j.parts, d.files, ios);
    d.(files := r.files, active := d.active[k := j.(parts := r.parts)])
  }

  lemma SamePart(write: bool, p: Part, content: Bytes, io: FileIo)
    requires PollPart(write, p, content, io).PartPoll?
    ensures var q := PollPart(write, p, content, io).part;
            && q.file == p.file && q.window == p.window
            && (write ==> q.block == p.block && (Counted(p) ==> Counted(q)))
  {
    hide WriteAt;
  }

  /** Polling changes neither the files and windows of a job nor the block it writes. */
  lemma {:induction false} SameParts(write: bool, parts: seq<Part>, files: Files, ios: seq<FileIo>)
    requires PollParts(write, parts, files, ios).JobPoll?
    ensures var r := PollParts(write, parts, files, ios);
            && |r.parts| == |parts|
            && forall i :: 0 <= i < |parts| ==>
                 && r.parts[i].file == parts[i].file && r.parts[i].window == parts[i].window
                 && (write ==> r.parts[i].block == parts[i].block && (Counted(parts[i]) ==> Counted(r.parts[i])))
    decreases |parts|
  {
    if parts != [] {
      var io := if ios == [] then NO_IO else ios[0];
      var r := PollPart(write, parts[0], files.At(parts[0].file), io);
      SamePart(write, parts[0], files.At(parts[0].file), io);
      hide PollPart;
      SameParts(write, parts[1..], files.Put(r.part.file, r.content), if ios == [] then [] else ios[1..]);
    }
  }

  /** The polled job is as sound as it was. */
  lemma PolledIsSound(d: Disk, k: nat, ios: seq<FileIo>)
    requires k < |d.active| && JobSound(d, d.active[k])
    requires PollParts(d.active[k].write, d.active[k].parts, d.files, ios).JobPoll?
    ensures JobSound(d, Polled(d, k, ios).active[k])
  {
    hide PollParts, TorrentFile.FilesForBlock, Disk.IsGoodPiece;
    SameParts(d.active[k].write, d.active[k].parts, d.files, ios);
  }

  /** How the manager after a poll compares with the polled job still in place. */
  lemma PollShape(d: Disk, k: nat, ios: seq<FileIo>)
    requires k < |d.active|
    ensures var (d', r) := d.PollJob(k, ios);
            var rest := SwapRemove(d.active, k);
            && d'.torrents == d.torrents && d'.sha == d.sha && d'.queue == d.queue
            && (r.Crash? <==> PollParts(d.active[k].write, d.active[k].parts, d.files, ios).JobPanicked?)
            && (if r.Crash? then d'.active == rest && d'.files == d.files
                else
                  && PollParts(d.active[k].write, d.active[k].parts, d.files, ios).JobPoll?
                  && var p := Polled(d, k, ios);
                     && d'.files == p.files
                     && (if r.Answer?
                         then d'.active == rest && r.out == Finalize(p.active[k])
                              && r.key == Some(Key(p.active[k].write, p.active[k].torrent, p.active[k].metadata))
                         else d'.active == rest + [p.active[k]]))
  {
    hide PollParts, Finalize, InsertAll, SwapRemove;
  }

  lemma SwapRemoveElement<T>(a: seq<T>, k: nat, i: nat) returns (x: nat)
    requires k < |a| && i < |a| - 1
    ensures x < |a| && x != k && SwapRemove(a, k)[i] == a[x]
  {
    x := if i == k then |a| - 1 else i;
  }

  // ---------------------------------------------------------------- every step

  lemma StepGrows(d: Disk, e: Event)
    ensures Grows(d, Step(d, e).0)
  {
    hide Disk.Pop, Disk.PollJob;
    match e
    case Enqueue(m) =>
    case PollJob(k, ios) =>
      if k < |d.active| {
        PollShape(d, k, ios);
      }
    case Pop(opens) =>
      if d.queue != [] {
        PopShape(d, opens);
      }
  }

  lemma PollKeepsSound(d: Disk, k: nat, ios: seq<FileIo>)
    requires Sound(d) && k < |d.active|
    ensures Sound(d.PollJob(k, ios).0)
  {
    hide Disk.PollJob, PollParts, Finalize, JobSound, MessageOk, WellLaid;
    PollShape(d, k, ios);
    var (d', r) := d.PollJob(k, ios);
    forall x | 0 <= x < |d'.active|
      ensures JobSound(d', d'.active[x])
    {
      if x < |d.active| - 1 {
        var i := SwapRemoveElement(d.active, k, x);
        JobStaysSound(d, d', d.active[i]);
      } else {
        PolledIsSound(d, k, ios);
        JobStaysSound(d, d', Polled(d, k, ios).active[k]);
      }
    }
  }

  lemma FreshIsSound(d: Disk, r: Request, j: Job)
    requires Fresh(d, r, j) && MessageOk(Submit(r))
    ensures JobSound(d, j)
  {
    hide TorrentFile.FilesForBlock;
    assert r.WriteRequest? ==> j.metadata == r.block.metadata && Block(r.block.metadata, r.block.data) == r.block;
  }

  lemma PopKeepsSound(d: Disk, opens: seq<OpenIo>)
    requires Sound(d) && d.queue != []
    ensures Sound(d.Pop(opens).0)
  {
    hide Disk.Pop, JobSound, Fresh, MessageOk, WellLaid;
    PopShape(d, opens);
    PopKeepsTorrents(d, opens);
    var d' := d.Pop(opens).0;
    if d'.active != d.active {
      var j :| d'.active == d.active + [j] && Fresh(d, d.queue[0].request, j);
      assert MessageOk(d.queue[0]);
      FreshIsSound(d, d.queue[0].request, j);
    }
    forall x | 0 <= x < |d'.active|
      ensures JobSound(d', d'.active[x])
    {
      JobStaysSound(d, d', d'.active[x]);
    }
  }

  /** Whatever the file system answers, whatever the cache drops, and even if it panics, a step keeps all this. */
  lemma StepKeepsSound(d: Disk, e: Event)
    requires Sound(d) && Possible(e)
    ensures Sound(Step(d, e).0)
  {
    hide Disk.Pop, Disk.PollJob, MessageOk, WellLaid;
    match e
    case Enqueue(m) =>
      assert forall x :: x in d.queue + [m] <==> x in d.queue || x == m;
      forall x | 0 <= x < |d.active|
        ensures JobSound(Step(d, e).0, d.active[x])
      {
        JobStaysSound(d, Step(d, e).0, d.active[x]);
      }
    case PollJob(k, ios) =>
      if k < |d.active| {
        PollKeepsSound(d, k, ios);
      }
    case Pop(opens) =>
      if d.queue != [] {
        PopKeepsSound(d, opens);
      }
  }

  ghost predicate PossibleRun(es: seq<Event>) {
    forall e :: e in es ==> Possible(e)
  }

  lemma {:induction false} SoundOverRuns(d: Disk, es: seq<Event>, i: nat)
    requires Sound(d) && PossibleRun(es) && i <= |es|
    ensures Sound(StateAt(d, es, i))
  {
    hide Sound, Step, Run;
    if i == 0 {
      assert es[..0] == [];
      EmptyRun(d);
    } else {
      SoundOverRuns(d, es, i - 1);
      RunStep(d, es, i - 1);
      assert es[i - 1] in es;
      StepKeepsSound(StateAt(d, es, i - 1), es[i - 1]);
    }
  }

  /** A manager that has done nothing yet, on any files. */
  function NewDisk(capacity: nat, files: Files, sha: Bytes -> Digest): Disk {
    Disk([], Cache(capacity, [], map[]), map[], [], files, sha)
  }

  lemma NewDiskIsSound(capacity: nat, files: Files, sha: Bytes -> Digest)
    ensures Sound(NewDisk(capacity, files, sha))
  {
  }

  // ---------------------------------------------------------------- answers

  /** Blocks are reported by polling a job, and the report is about that job. */
  lemma ReportsComeFromJobs(d: Disk, e: Event)
    requires Step(d, e).1.Answer? && (Step(d, e).1.out.PieceWritten? || Step(d, e).1.out.BlockRead?)
    ensures e.PollJob? && e.k < |d.active| && Step(d, e) == d.PollJob(e.k, e.ios)
  {
    hide PollParts, Finalize, AcquireFiles, TorrentFile.FilesForBlock, Fragments, ReadParts, Disk.IsGoodPiece;
  }

  /** A sound job that reports a block written reports one with the right hash; only a single file is possible. */
  lemma FinishedIsGood(d: Disk, j: Job)
    requires JobSound(d, j) && TorrentsOk(d) && Finalize(j).PieceWritten?
    ensures |j.parts| == 1 && d.IsGoodPiece(Finalize(j).torrent, Finalize(j).block)
  {
    hide TorrentFile.FilesForBlock, Disk.IsGoodPiece;
    AnswerNamesTorrent(d, j);
    assert j.parts[0] in j.parts;
  }

  /** Every piece reported written had the hash of its piece. */
  lemma WrittenIsGood(d: Disk, e: Event)
    requires Sound(d) && Step(d, e).1.Answer? && Step(d, e).1.out.PieceWritten?
    ensures d.IsGoodPiece(Step(d, e).1.out.torrent, Step(d, e).1.out.block)
  {
    hide Step, PollParts, JobSound, TorrentsOk, Disk.IsGoodPiece, Disk.PollJob;
    ReportsComeFromJobs(d, e);
    PollShape(d, e.k, e.ios);
    PolledIsSound(d, e.k, e.ios);
    FinishedIsGood(d, Polled(d, e.k, e.ios).active[e.k]);
  }

  /** Verified writes: in every run of a new manager, whatever files, cache and callers do, a piece that is reported
      written had the hash of its piece. */
  lemma WrittenWasVerified(capacity: nat, files: Files, sha: Bytes -> Digest, es: seq<Event>, i: nat)
    requires PossibleRun(es) && i < |es|
    requires var r := Run(NewDisk(capacity, files, sha), es).1[i]; r.Answer? && r.out.PieceWritten?
    ensures var d := NewDisk(capacity, files, sha);
            var out := Run(d, es).1[i].out;
            StateAt(d, es, i).IsGoodPiece(out.torrent, out.block)
  {
    hide Sound, Step, Run, Disk.IsGoodPiece, PossibleRun;
    var d := NewDisk(capacity, files, sha);
    NewDiskIsSound(capacity, files, sha);
    SoundOverRuns(d, es, i);
    RunStep(d, es, i);
    WrittenIsGood(StateAt(d, es, i), es[i]);
  }

  /** The answer to a request fits it: same direction, same torrent, same block. */
  predicate Fits(key: Key, out: Out) {
    match out
    case BlockRead(t, block) => key == Key(false, t, block.metadata)
    case PieceWritten(t, block) => key == Key(true, t, block.metadata)
    case ReadBlockError(t) => !key.write && key.torrent == t
    case WriteBlockError(t) => key.write && key.torrent == t
    case TorrentAdded(_) => false
    case TorrentError(_) => false
  }

  lemma FinishedFits(d: Disk, j: Job)
    requires Situated(d.torrents, j) && TorrentsOk(d)
    ensures Fits(Key(j.write, j.torrent, j.metadata), Finalize(j))
  {
    AnswerNamesTorrent(d, j);
    hide Situated, TorrentsOk;
  }

  lemma PopAnswerFits(d: Disk, opens: seq<OpenIo>)
    requires d.queue != [] && d.Pop(opens).1.Answer? && d.Pop(opens).1.key.Some?
    ensures Fits(d.Pop(opens).1.key.value, d.Pop(opens).1.out)
  {
    hide AcquireFiles, TorrentFile.FilesForBlock, Fragments, ReadParts, Disk.IsGoodPiece;
  }

  lemma StepAnswerFits(d: Disk, e: Event)
    requires Sound(d) && Step(d, e).1.Answer? && Step(d, e).1.key.Some?
    ensures Fits(Step(d, e).1.key.value, Step(d, e).1.out)
  {
    hide Disk.Pop, Disk.PollJob, Fits, TorrentsOk, JobSound, PollParts;
    match e
    case PollJob(k, ios) =>
      PollShape(d, k, ios);
      PolledIsSound(d, k, ios);
      SoundIsSituated(d, Polled(d, k, ios).active[k]);
      FinishedFits(d, Polled(d, k, ios).active[k]);
    case Pop(opens) => PopAnswerFits(d, opens);
    case Enqueue(_) =>
  }

  lemma SoundIsSituated(d: Disk, j: Job)
    requires JobSound(d, j)
    ensures Situated(d.torrents, j)
  {
  }

  /** In every run of a new manager every answer fits the request it answers. */
  lemma AnswersFit(capacity: nat, files: Files, sha: Bytes -> Digest, es: seq<Event>, i: nat)
    requires PossibleRun(es) && i < |es|
    requires var r := Run(NewDisk(capacity, files, sha), es).1[i]; r.Answer? && r.key.Some?
    ensures var r := Run(NewDisk(capacity, files, sha), es).1[i]; Fits(r.key.value, r.out)
  {
    hide Sound, Step, Run, Fits, PossibleRun;
    var d := NewDisk(capacity, files, sha);
    NewDiskIsSound(capacity, files, sha);
    SoundOverRuns(d, es, i);
    RunStep(d, es, i);
    StepAnswerFits(StateAt(d, es, i), es[i]);
  }
}
