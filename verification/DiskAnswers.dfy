/** What the disk manager answers to a request, told from the answers of the file system (src/disk/manager.rs,
    src/disk/block.rs). */
module DiskAnswers {
  import opened Collections
  import opened Messages
  import opened Blocks
  import opened DiskFiles
  import opened DiskJobs
  import opened DiskManagers
  import opened DiskRuns
  import opened Provenance
  import opened Tracks

  // ---------------------------------------------------------------- one poll of one part

  /** The poll gets to a read or write call. A write gives up on a failed seek, a read does not notice it. */
  predicate Calls(write: bool, p: Part, io: FileIo) {
    p.phase.Process? || (p.phase.Seek? && (io.seek.SeekDone? || (io.seek.SeekFailed? && !write)))
  }

  /** The seek of a write or the call itself fails. */
  predicate Fails(write: bool, p: Part, io: FileIo) {
    || (write && p.phase.Seek? && io.seek.SeekFailed?)
    || (Calls(write, p, io) && io.transfer.TransferFailed?)
  }

  /** Where the call starts in the file. */
  function From(p: Part, io: FileIo): nat {
    if p.phase.Seek? && io.seek.SeekDone? then p.window.offset else p.cursor
  }

  /** The number of bytes that the call moves: what the file system says, but no more than there is to write, or to
      read. */
  function Gain(write: bool, p: Part, content: Bytes, io: FileIo): nat {
    if !Calls(write, p, io) || !io.transfer.Moved? then 0
    else
      var room := if write then p.window.length - p.moved else |content| - From(p, io);
      if room <= 0 then 0 else if io.transfer.count <= room then io.transfer.count else room
  }

  /** The bytes in the hands of the part after the poll: the block that is written, or all that has been read. */
  function InHand(write: bool, p: Part, content: Bytes, io: FileIo): Bytes {
    var n := Gain(write, p, content, io);
    if write || n == 0 then p.block else p.block + content[From(p, io)..From(p, io) + n]
  }

  /** The poll makes the part ready. */
  predicate GetsReady(write: bool, p: Part, content: Bytes, io: FileIo) {
    || p.phase.Done?
    || Fails(write, p, io)
    || (Calls(write, p, io) && io.transfer.Moved? && p.window.length <= p.moved + Gain(write, p, content, io))
  }

  /** The phase after the poll: a call that has to wait goes on without a new seek, and one that moves the last bytes is
      the last. */
  function PhaseAfter(write: bool, p: Part, content: Bytes, io: FileIo): Phase {
    if !Calls(write, p, io) || io.transfer.TransferFailed? then p.phase
    else if io.transfer.TransferLater? then Process
    else if GetsReady(write, p, content, io) then Done
    else p.phase
  }

  /** The part after the poll. */
  function PartAfter(write: bool, p: Part, content: Bytes, io: FileIo): Part {
    var n := Gain(write, p, content, io);
    Part(p.file, if Calls(write, p, io) then From(p, io) + n else p.cursor, p.window, PhaseAfter(write, p, content, io),
         InHand(write, p, content, io), p.moved + n)
  }

  lemma PartExact(write: bool, p: Part, content: Bytes, io: FileIo)
    requires PollPart(write, p, content, io).PartPoll?
    ensures var r := PollPart(write, p, content, io);
            r.part == PartAfter(write, p, content, io) && (r.ready <==> GetsReady(write, p, content, io))
  {
    if write {
      WriteExactly(p, content, io);
    } else {
      ReadExactly(p, content, io);
    }
    hide PollWrite, PollRead, PartAfter, GetsReady;
  }

  lemma WriteExactly(p: Part, content: Bytes, io: FileIo)
    requires PollWrite(p, content, io).PartPoll?
    ensures var r := PollWrite(p, content, io);
            r.part == PartAfter(true, p, content, io) && (r.ready <==> GetsReady(true, p, content, io))
  {
    hide WriteAt;
  }

  lemma ReadExactly(p: Part, content: Bytes, io: FileIo)
    ensures var r := PollRead(p, content, io);
            r.part == PartAfter(false, p, content, io) && (r.ready <==> GetsReady(false, p, content, io))
  {
    if Calls(false, p, io) {
      CallExactly(p.(cursor := From(p, io)), content, io.transfer);
    }
    hide TransferRead;
  }

  /** One read call at the cursor. */
  lemma CallExactly(p: Part, content: Bytes, t: Transfer)
    ensures var r := TransferRead(p, content, t);
            var n := if t.Moved? && p.cursor <= |content| then Min(t.count, |content| - p.cursor) else 0;
            var full := t.Moved? && p.window.length <= p.moved + n;
            && (r.ready <==> t.TransferFailed? || full)
            && r.part == Part(p.file, p.cursor + n, p.window,
                              if t.TransferLater? then Process else if full then Phase.Done else p.phase,
                              if n == 0 then p.block else p.block + content[p.cursor..p.cursor + n], p.moved + n)
  {
    assert p.block + [] == p.block;
  }

  // ---------------------------------------------------------------- one poll of a job in one file

  function FirstOf(ios: seq<FileIo>): FileIo {
    if ios == [] then NO_IO else ios[0]
  }

  lemma SinglePoll(write: bool, p: Part, files: Files, ios: seq<FileIo>)
    ensures var one := PollPart(write, p, files.At(p.file), FirstOf(ios));
            var all := PollParts(write, [p], files, ios);
            if one.Panicked? then all.JobPanicked?
            else all == JobPoll([one.part], files.Put(one.part.file, one.content), one.ready)
  {
    hide PollPart;
    var one := PollPart(write, p, files.At(p.file), FirstOf(ios));
    assert [p][1..] == [];
    if one.PartPoll? {
      assert [one.part] + [] == [one.part];
      assert PollParts(write, [], files.Put(one.part.file, one.content), if ios == [] then [] else ios[1..])
          == JobPoll([], files.Put(one.part.file, one.content), true);
    }
  }

  lemma SingleTorrent(d: Disk, j: Job)
    requires Situated(d.torrents, j) && TorrentsOk(d) && |j.parts| == 1
    ensures j.parts[0].file.torrent == j.torrent
  {
    hide TorrentFile.FilesForBlock;
    var t := d.torrents[j.torrent];
    var r := t.FilesForBlock(j.metadata).value;
    FilesDistinct(t, j.metadata);
    assert r[0] in r;
  }

  // ---------------------------------------------------------------- what jobs stand for

  ghost predicate Requested(es: seq<Event>, r: Request) {
    Enqueue(Submit(r)) in es
  }

  /** The job works for a request of the run: same direction, torrent and block, and if it writes to one file, the data
      of the request. A job in one file is not done while it is active, and a read counts what it holds. */
  ghost predicate WorksFor(j: Job, r: Request) {
    && j.write == r.WriteRequest? && j.torrent == r.torrent && j.metadata == KeyOf(r).metadata
    && (|j.parts| == 1 ==>
          && !j.parts[0].phase.Done?
          && if j.write then j.parts[0].block == r.block.data else |j.parts[0].block| == j.parts[0].moved)
  }

  /** The answer that is due to a request that works in one file, when a poll makes it ready: success if and only if the
      whole window was written, or read. */
  function Due(r: Request, p: Part, content: Bytes, io: FileIo): Out {
    match r
    case WriteRequest(t, block) =>
      if p.moved + Gain(true, p, content, io) == p.window.length then PieceWritten(t, block) else WriteBlockError(t)
    case ReadRequest(t, m) =>
      var data := InHand(false, p, content, io);
      if |data| == p.window.length then BlockRead(t, Block(m, data)) else ReadBlockError(t)
  }

  /** In a sound manager a request in one file is answered if and only if the poll makes it ready, and then with the
      answer that is due. */
  lemma PollAnswers(d: Disk, k: nat, ios: seq<FileIo>, r: Request)
    requires Sound(d) && k < |d.active| && |d.active[k].parts| == 1 && WorksFor(d.active[k], r)
    requires !d.PollJob(k, ios).1.Crash?
    ensures var p := d.active[k].parts[0];
            var content := d.files.At(p.file);
            d.PollJob(k, ios).1 == if GetsReady(r.WriteRequest?, p, content, FirstOf(ios))
                                   then Answer(Some(KeyOf(r)), Due(r, p, content, FirstOf(ios))) else Quiet
  {
    var j := d.active[k];
    var p, io := j.parts[0], FirstOf(ios);
    var content := d.files.At(p.file);
    assert j.parts == [p];
    assert JobSound(d, j);
    SingleTorrent(d, j);
    SinglePoll(j.write, p, d.files, ios);
    hide Sound, PollPart, InsertAll, Gain, InHand, GetsReady, PollParts, SwapRemove;
    PartExact(j.write, p, content, io);
    WritesItself(r);
  }

  lemma WritesItself(r: Request)
    ensures r.WriteRequest? ==> Block(KeyOf(r).metadata, r.block.data) == r.block
  {
  }

  ghost predicate HasRequest(es: seq<Event>, j: Job) {
    exists r :: Requested(es, r) && WorksFor(j, r)
  }

  ghost predicate Traced(d: Disk, es: seq<Event>) {
    && (forall m :: m in d.queue && m.Submit? ==> Requested(es, m.request))
    && (forall k :: 0 <= k < |d.active| ==> HasRequest(es, d.active[k]))
  }

  lemma PolledWorksFor(d: Disk, k: nat, ios: seq<FileIo>, r: Request)
    requires k < |d.active| && WorksFor(d.active[k], r) && d.PollJob(k, ios).1.Quiet?
    ensures var d' := d.PollJob(k, ios).0;
            d'.active != [] && WorksFor(d'.active[|d'.active| - 1], r)
  {
    var j := d.active[k];
    PollShape(d, k, ios);
    SameParts(j.write, j.parts, d.files, ios);
    if |j.parts| == 1 {
      var p, io := j.parts[0], FirstOf(ios);
      assert j.parts == [p];
      SinglePoll(j.write, p, d.files, ios);
      hide PollPart, PollParts, Gain, InHand, GetsReady;
      PartExact(j.write, p, d.files.At(p.file), io);
      InHandSize(j.write, p, d.files.At(p.file), io);
    }
  }

  lemma InHandSize(write: bool, p: Part, content: Bytes, io: FileIo)
    ensures |InHand(write, p, content, io)| == |p.block| + if write then 0 else Gain(write, p, content, io)
  {
  }

  lemma PollKeepsTraced(d: Disk, es: seq<Event>, k: nat, ios: seq<FileIo>)
    requires Traced(d, es) && k < |d.active|
    ensures Traced(d.PollJob(k, ios).0, es)
  {
    hide PollParts, Finalize, Requested, WorksFor;
    PollShape(d, k, ios);
    var (d', out) := d.PollJob(k, ios);
    hide Disk.PollJob;
    forall x | 0 <= x < |d'.active|
      ensures HasRequest(es, d'.active[x])
    {
      if x < |d.active| - 1 {
        var i := SwapRemoveElement(d.active, k, x);
      } else {
        var r :| Requested(es, r) && WorksFor(d.active[k], r);
        PollIsQuiet(d, k, ios);
        PolledWorksFor(d, k, ios, r);
      }
    }
  }

  lemma PollIsQuiet(d: Disk, k: nat, ios: seq<FileIo>)
    requires k < |d.active|
    ensures var (d', r) := d.PollJob(k, ios); !r.Stalled? && (!r.Quiet? ==> |d'.active| == |d.active| - 1)
  {
    hide PollParts, Finalize, InsertAll;
  }

  lemma FreshWorksFor(d: Disk, r: Request, j: Job)
    requires Fresh(d, r, j)
    ensures WorksFor(j, r)
  {
    hide Situated, Disk.IsGoodPiece;
  }

  lemma PopKeepsTraced(d: Disk, es: seq<Event>, opens: seq<OpenIo>)
    requires Traced(d, es) && d.queue != []
    ensures Traced(d.Pop(opens).0, es)
  {
    hide Disk.Start, Requested, WorksFor, Fresh;
    var rest := d.(queue := d.queue[1..]);
    var d' := d.Pop(opens).0;
    assert d.queue[0] in d.queue;
    assert forall m :: m in rest.queue ==> m in d.queue;
    if d.queue[0].Submit? {
      var r := d.queue[0].request;
      StartShape(rest, r, opens);
      if d'.active != d.active {
        var j :| d'.active == d.active + [j] && Fresh(rest, r, j);
        FreshWorksFor(rest, r, j);
      }
      forall m | m in d'.queue && m.Submit?
        ensures Requested(es, m.request)
      {
        assert m in d.queue;
      }
    }
    forall k | 0 <= k < |d'.active|
      ensures HasRequest(es, d'.active[k])
    {
      if k < |d.active| {
        assert d'.active[k] == d.active[k];
      }
    }
  }

  lemma StepKeepsTraced(d: Disk, es: seq<Event>, e: Event)
    requires Traced(d, es)
    ensures Traced(Step(d, e).0, es + [e])
  {
    var d' := Step(d, e).0;
    hide WorksFor, Disk.Pop, Disk.PollJob;
    match e
    case Enqueue(m) =>
      MoreRequested(d', es, e);
    case PollJob(k, ios) =>
      if k < |d.active| {
        PollKeepsTraced(d, es, k, ios);
      }
      MoreRequested(d', es, e);
    case Pop(opens) =>
      if d.queue != [] {
        PopKeepsTraced(d, es, opens);
      }
      MoreRequested(d', es, e);
  }

  lemma MoreRequested(d: Disk, es: seq<Event>, e: Event)
    requires if e.Enqueue? then d.queue != [] && d.queue[|d.queue| - 1] == e.message
                                && Traced(d.(queue := d.queue[..|d.queue| - 1]), es)
             else Traced(d, es)
    ensures Traced(d, es + [e])
  {
    hide WorksFor;
    assert forall r :: Requested(es, r) ==> Requested(es + [e], r);
    var before := if e.Enqueue? then d.(queue := d.queue[..|d.queue| - 1]) else d;
    forall m | m in d.queue && m.Submit?
      ensures Requested(es + [e], m.request)
    {
      if m !in before.queue {
        assert d.queue == before.queue + [e.message];
        assert m == e.message;
        assert e in es + [e];
      }
    }
    forall k | 0 <= k < |d.active|
      ensures HasRequest(es + [e], d.active[k])
    {
      assert before.active[k] == d.active[k];
      var r :| Requested(es, r) && WorksFor(before.active[k], r);
    }
  }

  lemma {:induction false} TracedOverRuns(d: Disk, es: seq<Event>, i: nat)
    requires Traced(d, []) && i <= |es|
    ensures Traced(StateAt(d, es, i), es[..i])
  {
    hide Traced, Step, Run;
    if i == 0 {
      assert es[..0] == [];
      EmptyRun(d);
    } else {
      TracedOverRuns(d, es, i - 1);
      RunStep(d, es, i - 1);
      assert es[..i] == es[..i - 1] + [es[i - 1]];
      StepKeepsTraced(StateAt(d, es, i - 1), es[..i - 1], es[i - 1]);
    }
  }

  // ---------------------------------------------------------------- over runs

  lemma NewDiskIsTraced(capacity: nat, files: Files, sha: Bytes -> Digest)
    ensures Traced(NewDisk(capacity, files, sha), [])
  {
  }

  /** Event `i` of a run polls a job in one file. */
  ghost predicate PollsSingle(d: Disk, es: seq<Event>, i: nat) {
    && i < |es| && es[i].PollJob?
    && var s := StateAt(d, es, i); es[i].k < |s.active| && |s.active[es[i].k].parts| == 1
  }

  /** Output `i` of the run is what is due to the request `r`. */
  ghost predicate AnswersRequest(d: Disk, es: seq<Event>, i: nat, r: Request)
    requires PollsSingle(d, es, i)
  {
    var s := StateAt(d, es, i);
    var p, io := s.active[es[i].k].parts[0], FirstOf(es[i].ios);
    var content := s.files.At(p.file);
    && Requested(es[..i], r) && WorksFor(s.active[es[i].k], r)
    && Run(d, es).1[i] == if GetsReady(r.WriteRequest?, p, content, io)
                          then Answer(Some(KeyOf(r)), Due(r, p, content, io)) else Quiet
  }

  /** In every run of a new manager, whatever files, cache and callers do: a poll of a job in one file, unless it
      panics, answers a request of the run if and only if it makes the job ready, and it answers with what is due. */
  lemma AnswerOverRuns(capacity: nat, files: Files, sha: Bytes -> Digest, es: seq<Event>, i: nat) returns (r: Request)
    requires PossibleRun(es) && PollsSingle(NewDisk(capacity, files, sha), es, i)
    requires !Run(NewDisk(capacity, files, sha), es).1[i].Crash?
    ensures AnswersRequest(NewDisk(capacity, files, sha), es, i, r)
  {
    hide Sound, Step, Run, PossibleRun, WorksFor, Requested, Gain, InHand, GetsReady, Due;
    var d := NewDisk(capacity, files, sha);
    NewDiskIsSound(capacity, files, sha);
    SoundOverRuns(d, es, i);
    NewDiskIsTraced(capacity, files, sha);
    TracedOverRuns(d, es, i);
    RunStep(d, es, i);
    var s := StateAt(d, es, i);
    assert HasRequest(es[..i], s.active[es[i].k]);
    r :| Requested(es[..i], r) && WorksFor(s.active[es[i].k], r);
    StepPolls(s, es[i].k, es[i].ios);
    PollAnswers(s, es[i].k, es[i].ios, r);
  }

  lemma StepPolls(d: Disk, k: nat, ios: seq<FileIo>)
    requires k < |d.active|
    ensures Step(d, PollJob(k, ios)) == d.PollJob(k, ios)
  {
    hide Disk.PollJob;
  }

  /** Hence a write in one file that gets ready without a failure is reported written, with the data of its request. */
  lemma CleanWriteIsReported(capacity: nat, files: Files, sha: Bytes -> Digest, es: seq<Event>, i: nat)
    returns (r: Request)
    requires var d := NewDisk(capacity, files, sha);
             && PossibleRun(es) && PollsSingle(d, es, i) && !Run(d, es).1[i].Crash?
             && var s := StateAt(d, es, i);
                var j, io := s.active[es[i].k], FirstOf(es[i].ios);
                && j.write && !Fails(true, j.parts[0], io)
                && GetsReady(true, j.parts[0], s.files.At(j.parts[0].file), io)
    ensures Requested(es[..i], r) && r.WriteRequest?
    ensures Run(NewDisk(capacity, files, sha), es).1[i] == Answer(Some(KeyOf(r)), PieceWritten(r.torrent, r.block))
  {
    hide Step, Run, PossibleRun, Requested;
    r := AnswerOverRuns(capacity, files, sha, es, i);
    var d := NewDisk(capacity, files, sha);
    NewDiskIsSound(capacity, files, sha);
    SoundOverRuns(d, es, i);
    var s := StateAt(d, es, i);
    var p := s.active[es[i].k].parts[0];
    SoundIsCounted(s, es[i].k);
    CleanIsComplete(p, s.files.At(p.file), FirstOf(es[i].ios));
    hide Sound, Gain, GetsReady, InHand;
  }

  lemma SoundIsCounted(d: Disk, k: nat)
    requires Sound(d) && k < |d.active| && d.active[k].write && d.active[k].parts != []
    ensures Counted(d.active[k].parts[0])
  {
    assert JobSound(d, d.active[k]);
    hide Situated, Disk.IsGoodPiece;
  }

  lemma CleanIsComplete(p: Part, content: Bytes, io: FileIo)
    requires Counted(p) && !p.phase.Done? && GetsReady(true, p, content, io) && !Fails(true, p, io)
    ensures p.moved + Gain(true, p, content, io) == p.window.length
  {
  }

  lemma CalmIsPossible(d: Disk, es: seq<Event>)
    requires CalmRun(d, es)
    ensures PossibleRun(es)
  {
    forall e | e in es
      ensures Possible(e)
    {
      var i :| 0 <= i < |es| && es[i] == e;
      assert Calm(StateAt(d, es, i), es[i]);
    }
  }

  /** In a calm run the bytes are then in the window. */
  lemma CalmWriteLands(capacity: nat, files: Files, sha: Bytes -> Digest, es: seq<Event>, i: nat)
    returns (r: Request)
    requires var d := NewDisk(capacity, files, sha);
             && CalmRun(d, es) && PollsSingle(d, es, i)
             && var s := StateAt(d, es, i);
                var j, io := s.active[es[i].k], FirstOf(es[i].ios);
                && j.write && !Fails(true, j.parts[0], io)
                && GetsReady(true, j.parts[0], s.files.At(j.parts[0].file), io)
    ensures Requested(es[..i], r) && r.WriteRequest?
    ensures var d := NewDisk(capacity, files, sha);
            && Run(d, es).1[i] == Answer(Some(KeyOf(r)), PieceWritten(r.torrent, r.block))
            && WindowHolds(StateAt(d, es, i + 1), r.torrent, r.block)
  {
    hide Step, Run, PossibleRun, Requested, GetsReady, Calm, Sound, WindowHolds;
    var d := NewDisk(capacity, files, sha);
    CalmIsPossible(d, es);
    NewDiskIsSound(capacity, files, sha);
    SoundOverRuns(d, es, i);
    RunStep(d, es, i);
    CalmNoCrash(StateAt(d, es, i), es[i]);
    r := CleanWriteIsReported(capacity, files, sha, es, i);
    WrittenIsInItsWindow(capacity, files, sha, es, i);
  }
}
