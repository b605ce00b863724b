/** How requests come to be served: the order in which they are taken up, exactly when one is refused, put off or
    started, and that a cooperating file system is enough for a block to be written and read back
    (src/disk/manager.rs). */
module DiskService {
  import opened Collections
  import opened Messages
  import opened Blocks
  import opened DiskFiles
  import opened DiskJobs
  import opened DiskManagers
  import opened DiskRuns
  import opened Provenance
  import opened DiskAnswers
  import T = Transfers

  // ---------------------------------------------------------------- first come, first served

  /** The message that a step takes off the queue. */
  function TakenBy(d: Disk, e: Event): seq<Message> {
    if e.Pop? && d.queue != [] then [d.queue[0]] else []
  }

  /** The message that a step puts at the end of the queue: a new one, or one whose files are not at hand. */
  function ArrivesBy(d: Disk, e: Event): seq<Message> {
    if e.Enqueue? then [e.message]
    else if e.Pop? && d.queue != [] && Step(d, e).1.Stalled? then [d.queue[0]]
    else []
  }

  function Taken(d: Disk, es: seq<Event>): seq<Message>
    decreases |es|
  {
    if es == [] then [] else TakenBy(d, es[0]) + Taken(Step(d, es[0]).0, es[1..])
  }

  function Arriving(d: Disk, es: seq<Event>): seq<Message>
    decreases |es|
  {
    if es == [] then [] else ArrivesBy(d, es[0]) + Arriving(Step(d, es[0]).0, es[1..])
  }

  lemma StepQueue(d: Disk, e: Event)
    ensures TakenBy(d, e) + Step(d, e).0.queue == d.queue + ArrivesBy(d, e)
  {
    match e
    case Enqueue(m) =>
    case PollJob(k, ios) =>
      hide PollParts, Finalize, InsertAll;
    case Pop(opens) =>
      if d.queue != [] {
        hide Disk.Start;
        StartQueue(d.(queue := d.queue[1..]), opens);
        assert d.queue == [d.queue[0]] + d.queue[1..];
      }
  }

  lemma StartQueue(d: Disk, opens: seq<OpenIo>)
    ensures forall r :: var (d', out) := d.Start(r, opens);
              d'.queue == if out.Stalled? then d.queue + [Submit(r)] else d.queue
  {
    hide AcquireFiles, Fragments, ReadParts, TorrentFile.FilesForBlock, Disk.IsGoodPiece;
  }

  /** Over every run the messages taken up, followed by those still waiting, are the messages that waited at the start,
      followed by those that arrived, in that order. */
  lemma {:induction false} FirstComeFirstServed(d: Disk, es: seq<Event>)
    ensures Taken(d, es) + Run(d, es).0.queue == d.queue + Arriving(d, es)
    decreases |es|
  {
    hide Step, TakenBy, ArrivesBy;
    if es != [] {
      var d' := Step(d, es[0]).0;
      StepQueue(d, es[0]);
      FirstComeFirstServed(d', es[1..]);
      ConcatAssociates(TakenBy(d, es[0]), Taken(d', es[1..]), Run(d, es).0.queue);
      ConcatAssociates(TakenBy(d, es[0]), d'.queue, Arriving(d', es[1..]));
      ConcatAssociates(d.queue, ArrivesBy(d, es[0]), Arriving(d', es[1..]));
    }
  }

  // ---------------------------------------------------------------- torrents

  /** A step makes a torrent known if and only if it says so; the message it takes up is then the torrent, and no known
      torrent is replaced. */
  lemma StepTorrents(d: Disk, e: Event, t: TorrentId)
    ensures var (d', out) := Step(d, e);
            && (t in d'.torrents <==> t in d.torrents || out == Answer(None, TorrentAdded(t)))
            && (t in d.torrents ==> d'.torrents[t] == d.torrents[t] && out != Answer(None, TorrentAdded(t)))
            && (out == Answer(None, TorrentAdded(t)) ==>
                  t in d'.torrents && TakenBy(d, e) == [AddTorrent(d'.torrents[t])] && d'.torrents[t].id == t)
            && (TakenBy(d, e) != [] && TakenBy(d, e)[0].AddTorrent? ==>
                  out == Answer(None, TorrentAdded(TakenBy(d, e)[0].torrent.id))
                  || (out == Answer(None, TorrentError(TakenBy(d, e)[0].torrent.id))
                      && TakenBy(d, e)[0].torrent.id in d.torrents))
  {
    match e
    case PollJob(k, ios) =>
      hide PollParts, Finalize, InsertAll;
    case Pop(opens) =>
      hide AcquireFiles, Fragments, ReadParts, TorrentFile.FilesForBlock, Disk.IsGoodPiece;
    case _ =>
  }

  /** Over every run: the torrents known are those known at the start and those reported as added. */
  lemma {:induction false} KnownExact(d: Disk, es: seq<Event>, t: TorrentId)
    ensures t in Run(d, es).0.torrents <==> t in d.torrents || Answer(None, TorrentAdded(t)) in Run(d, es).1
    ensures t in d.torrents ==> t in Run(d, es).0.torrents && Run(d, es).0.torrents[t] == d.torrents[t]
    decreases |es|
  {
    hide Step, TakenBy;
    if es != [] {
      StepTorrents(d, es[0], t);
      KnownExact(Step(d, es[0]).0, es[1..], t);
    }
  }

  // ---------------------------------------------------------------- taking up a request

  /** The file can be used now: it is in the cache, put back or queued for this very window, or it opens at once. */
  predicate AtHand(c: Cache, f: FileEntry, w: FileWindow, opens: seq<OpenIo>) {
    if f.id in c.states then c.states[f.id].Ready? || (c.states[f.id].Queued? && c.states[f.id].window == w)
    else opens != [] && opens[0].Opened?
  }

  predicate CannotOpen(c: Cache, f: FileEntry, opens: seq<OpenIo>) {
    f.id !in c.states && opens != [] && opens[0].OpenFailed?
  }

  lemma GatherOne(c: Cache, f: FileEntry, w: FileWindow, opens: seq<OpenIo>)
    ensures var r := Gather(c, [(f, w)], opens, [], true);
            if CannotOpen(c, f, opens) then r.OpenError?
            else && r.Gathered? && (r.allReady <==> AtHand(c, f, w, opens))
                 && (r.allReady ==> |r.grabs| == 1 && r.grabs[0].file == f.id && r.grabs[0].window == w)
  {
    assert [(f, w)][1..] == [];
    hide Cache.Remove, Cache.Insert;
  }

  function RefusalOf(r: Request): Result {
    Answer(Some(KeyOf(r)), if r.WriteRequest? then WriteBlockError(r.torrent) else ReadBlockError(r.torrent))
  }

  /** The data of a write does not have the hash of its piece. */
  predicate Forged(d: Disk, r: Request)
    requires r.torrent in d.torrents && KeyOf(r).metadata.pieceIndex < |d.torrents[r.torrent].pieces|
  {
    r.WriteRequest? && d.sha(r.block.data) != d.torrents[r.torrent].pieces[r.block.metadata.pieceIndex]
  }

  /** A request for a torrent nobody added, or for a block that is not in its piece, is refused, and nothing changes. */
  lemma NonsenseIsRefused(d: Disk, r: Request, opens: seq<OpenIo>)
    requires r.torrent !in d.torrents || !d.torrents[r.torrent].InPiece(KeyOf(r).metadata)
    ensures d.Start(r, opens) == (d, RefusalOf(r))
  {
  }

  /** A request for a block in one file is refused if and only if it would write data with another hash, or its file
      does not open; it is started if and only if its file is at hand; otherwise it goes to the end of the queue. */
  lemma StartExact(d: Disk, r: Request, f: FileEntry, w: FileWindow, opens: seq<OpenIo>)
    requires r.torrent in d.torrents && d.torrents[r.torrent].FilesForBlock(KeyOf(r).metadata) == Some([(f, w)])
    ensures var (d', out) := d.Start(r, opens);
            && (out == RefusalOf(r) <==> Forged(d, r) || CannotOpen(d.cache, f, opens))
            && (out == Quiet <==> !Forged(d, r) && AtHand(d.cache, f, w, opens))
            && (out == Stalled <==> !Forged(d, r) && !AtHand(d.cache, f, w, opens) && !CannotOpen(d.cache, f, opens))
            && (d'.active == if out == Quiet then d.active + [d'.active[|d.active|]] else d.active)
            && d'.queue == (if out == Stalled then d.queue + [Submit(r)] else d.queue)
            && d'.files == d.files
    ensures var (d', out) := d.Start(r, opens);
            out == Quiet ==> |d'.active| == |d.active| + 1 && Fresh(d, r, d'.active[|d.active|])
  {
    GatherOne(d.cache, f, w, opens);
    StartShape(d, r, opens);
    hide Gather, TorrentFile.FilesForBlock, Fragments, ReadParts, InsertAll, Fresh;
    PlacedIsInPiece(d.torrents[r.torrent], KeyOf(r).metadata);
    var (d', out) := d.Start(r, opens);
    if out == Quiet {
      assert d'.active != d.active;
      var j :| d'.active == d.active + [j] && Fresh(d, r, j);
    }
  }

  lemma PlacedIsInPiece(t: TorrentFile, m: BlockMetadata)
    requires t.FilesForBlock(m).Some?
    ensures t.InPiece(m)
  {
  }

  // ---------------------------------------------------------------- service by a cooperating file system

  /** The file system opens the file, and moves all at once. */
  function Visit(d: Disk, r: Request, length: nat): seq<Event> {
    [Enqueue(Submit(r)), Pop([Opened]), PollJob(|d.active|, [FileIo(SeekDone, Moved(length))])]
  }

  /** What the request is answered if all goes well. */
  function Served(d: Disk, r: Request, f: FileEntry, w: FileWindow): Result
    requires r.ReadRequest? ==> w.End() <= |d.files.At(f.id)|
  {
    Answer(Some(KeyOf(r)),
           match r
           case WriteRequest(t, block) => PieceWritten(t, block)
           case ReadRequest(t, m) => BlockRead(t, Block(m, d.files.At(f.id)[w.offset..w.End()])))
  }

  /** A request that can be served: in one file that no other job has, with data that fits, or bytes that are there. */
  ghost predicate Servable(d: Disk, r: Request, f: FileEntry, w: FileWindow) {
    && MessageOk(Submit(r)) && r.torrent in d.torrents
    && d.torrents[r.torrent].FilesForBlock(KeyOf(r).metadata) == Some([(f, w)])
    && AtHand(d.cache, f, w, [Opened])
    && (r.WriteRequest? ==> d.IsGoodPiece(r.torrent, r.block) && w.length == |r.block.data|)
    && (r.ReadRequest? ==> w.End() <= |d.files.At(f.id)|)
  }

  lemma TakenUp(d: Disk, r: Request, f: FileEntry, w: FileWindow)
    requires Sound(d) && d.queue == [] && Servable(d, r, f, w)
    ensures var d1 := Step(d, Enqueue(Submit(r))).0;
            var (d2, out) := Step(d1, Pop([Opened]));
            && Step(d, Enqueue(Submit(r))).1 == Quiet && out == Quiet
            && d2.queue == [] && d2.files == d.files && Sound(d2)
            && d2.torrents == d.torrents && d2.sha == d.sha
            && |d2.active| == |d.active| + 1 && d2.active[..|d.active|] == d.active
            && Fresh(d, r, d2.active[|d.active|])
  {
    var d1 := Step(d, Enqueue(Submit(r))).0;
    assert d1.queue == [Submit(r)] && d1.(queue := d1.queue[1..]) == d;
    StepKeepsSound(d, Enqueue(Submit(r)));
    StepKeepsSound(d1, Pop([Opened]));
    hide Sound, Fresh, AtHand, CannotOpen;
    StartExact(d, r, f, w, [Opened]);
    StartShape(d, r, [Opened]);
    assert !CannotOpen(d.cache, f, [Opened]) by { OpensAtOnce(d.cache, f); }
    hide Disk.Start;
    assert Step(d1, Pop([Opened])) == d.Start(r, [Opened]);
  }

  lemma OpensAtOnce(c: Cache, f: FileEntry)
    ensures !CannotOpen(c, f, [Opened])
  {
  }

  lemma FreshSingle(d: Disk, r: Request, f: FileEntry, w: FileWindow, j: Job)
    requires Fresh(d, r, j) && d.torrents[r.torrent].FilesForBlock(KeyOf(r).metadata) == Some([(f, w)])
    ensures |j.parts| == 1
    ensures var p := j.parts[0];
            && p.file == f.id && p.window == w && p.phase.Seek? && p.moved == 0
            && p.block == if r.WriteRequest? then r.block.data else []
  {
    hide TorrentFile.FilesForBlock, Disk.IsGoodPiece;
  }

  /** One full transfer on a part that has just been made. */
  lemma FullTransfer(write: bool, p: Part, content: Bytes)
    requires p.phase.Seek? && p.moved == 0
    requires if write then |p.block| == p.window.length else p.block == [] && p.window.End() <= |content|
    ensures var io := FileIo(SeekDone, Moved(p.window.length));
            var r := PollPart(write, p, content, io);
            && r.PartPoll? && GetsReady(write, p, content, io) && Gain(write, p, content, io) == p.window.length
            && (if write then p.block != [] ==> SliceIs(r.content, p.window.offset, p.block)
                else r.content == content && InHand(false, p, content, io) == content[p.window.offset..p.window.End()])
            && r.part.file == p.file && r.ready
  {
    var io := FileIo(SeekDone, Moved(p.window.length));
    if write {
      assert p.block[0..0 + |p.block|] == p.block;
      var r := PollPart(write, p, content, io);
      assert r.content == WriteAt(content, p.window.offset, p.block);
      if p.block != [] {
        T.WriteAtFacts(content, p.window.offset, p.block);
        SliceByIndex(r.content, p.window.offset, p.block);
      }
    } else {
      assert content[p.window.offset..p.window.offset] == [];
    }
  }

  /** A file that has just been put back is at hand, or has been dropped and opens again. */
  lemma PutBackIsAtHand(c: Cache, f: FileEntry, w: FileWindow, cursor: nat)
    ensures AtHand(InsertAll(c, [(f.id, Ready(cursor))]), f, w, [Opened])
  {
    assert [(f.id, Ready(cursor))][1..] == [];
    var c' := c.Insert(f.id, Ready(cursor));
    assert InsertAll(c, [(f.id, Ready(cursor))]) == InsertAll(c', []) == c';
  }

  /** What a served request leaves behind. */
  ghost predicate ServedState(d: Disk, d': Disk, r: Request, f: FileEntry, w: FileWindow) {
    && Sound(d') && d'.queue == [] && d'.active == d.active && d'.torrents == d.torrents && d'.sha == d.sha
    && (forall id :: id != f.id ==> d'.files.At(id) == d.files.At(id))
    && (if r.WriteRequest? then r.block.data != [] ==> SliceIs(d'.files.At(f.id), w.offset, r.block.data)
        else d'.files.At(f.id) == d.files.At(f.id))
    && (forall v :: AtHand(d'.cache, f, v, [Opened]))
  }

  /** The manager after a poll that makes the last job, in one file, ready. */
  lemma ReadyPoll(d: Disk, p: Part, ios: seq<FileIo>)
    requires d.active != []
    requires var j := d.active[|d.active| - 1];
             j.parts == [p] && PollPart(j.write, p, d.files.At(p.file), FirstOf(ios)).PartPoll?
             && PollPart(j.write, p, d.files.At(p.file), FirstOf(ios)).ready
    ensures var (d', out) := d.PollJob(|d.active| - 1, ios);
            var one := PollPart(d.active[|d.active| - 1].write, p, d.files.At(p.file), FirstOf(ios));
            && !out.Crash? && d'.active == d.active[..|d.active| - 1] && d'.queue == d.queue
            && d'.torrents == d.torrents && d'.sha == d.sha && d'.files == d.files.Put(one.part.file, one.content)
            && d'.cache == InsertAll(d.cache, [(one.part.file, Ready(one.part.cursor))])
  {
    var j := d.active[|d.active| - 1];
    SinglePoll(j.write, p, d.files, ios);
    var one := PollPart(j.write, p, d.files.At(p.file), FirstOf(ios));
    assert ReadyOf([one.part]) == [(one.part.file, Ready(one.part.cursor))];
    hide PollPart, PollParts, Finalize, InsertAll, ReadyOf;
  }

  lemma PollServes(d: Disk, r: Request, f: FileEntry, w: FileWindow, d2: Disk)
    requires Servable(d, r, f, w) && Sound(d2) && d2.queue == [] && d2.files == d.files
    requires d2.torrents == d.torrents && d2.sha == d.sha
    requires |d2.active| == |d.active| + 1 && d2.active[..|d.active|] == d.active && Fresh(d, r, d2.active[|d.active|])
    ensures var (d3, out) := d2.PollJob(|d.active|, [FileIo(SeekDone, Moved(w.length))]);
            out == Served(d, r, f, w) && ServedState(d, d3, r, f, w)
  {
    var k, ios := |d.active|, [FileIo(SeekDone, Moved(w.length))];
    var j := d2.active[k];
    FreshSingle(d, r, f, w, j);
    FreshWorksFor(d, r, j);
    assert j.write == r.WriteRequest?;
    hide PollPart, Fresh, Finalize, Sound, AtHand, WorksFor, Situated, MessageOk,
      Gain, InHand, GetsReady, Disk.IsGoodPiece, TorrentFile.FilesForBlock, Disk.PollJob, InsertAll, ServedState;
    var p := j.parts[0];
    assert j.parts == [p];
    FullTransfer(j.write, p, d.files.At(f.id));
    ReadyPoll(d2, p, ios);
    PollAnswers(d2, k, ios, r);
    PollKeepsSound(d2, k, ios);
    var one := PollPart(j.write, p, d.files.At(f.id), ios[0]);
    LeftBehind(d, d2.PollJob(k, ios).0, r, f, w, d2.cache, one);
  }

  lemma LeftBehind(d: Disk, d': Disk, r: Request, f: FileEntry, w: FileWindow, c: Cache, one: PartPoll)
    requires Sound(d') && d'.queue == [] && d'.active == d.active && d'.torrents == d.torrents && d'.sha == d.sha
    requires one.PartPoll? && one.part.file == f.id && d'.files == d.files.Put(f.id, one.content)
    requires d'.cache == InsertAll(c, [(f.id, Ready(one.part.cursor))])
    requires if r.WriteRequest? then r.block.data != [] ==> SliceIs(one.content, w.offset, r.block.data)
             else one.content == d.files.At(f.id)
    ensures ServedState(d, d', r, f, w)
  {
    hide Sound, AtHand, InsertAll;
    forall v
      ensures AtHand(d'.cache, f, v, [Opened])
    {
      PutBackIsAtHand(c, f, v, one.part.cursor);
    }
  }

  /** A manager with an empty queue, whatever its other jobs are at, serves a request whose file is free, if the file
      system opens the file and moves all at once: a write is reported written and is in the file, a read delivers the
      bytes of the file. Other files and jobs are left alone. */
  lemma ServedAtOnce(d: Disk, r: Request, f: FileEntry, w: FileWindow)
    requires Sound(d) && d.queue == [] && Servable(d, r, f, w)
    ensures var (d', outs) := Run(d, Visit(d, r, w.length));
            outs == [Quiet, Quiet, Served(d, r, f, w)] && ServedState(d, d', r, f, w)
  {
    hide Sound, Servable, Fresh, Step, ServedState;
    TakenUp(d, r, f, w);
    var es := Visit(d, r, w.length);
    var d1 := Step(d, es[0]).0;
    var d2 := Step(d1, es[1]).0;
    PollServes(d, r, f, w, d2);
    StepPolls(d2, |d.active|, [FileIo(SeekDone, Moved(w.length))]);
    RunStates([d, d1, d2, Step(d2, es[2]).0], es);
  }

  /** So a piece that is written can be read back at once, block by block: the partner of read after write, which says
      that nothing else is ever read. */
  lemma WrittenIsReadBack(d: Disk, id: TorrentId, block: Block, f: FileEntry, w: FileWindow, m: BlockMetadata,
                          v: FileWindow)
    requires Sound(d) && d.queue == [] && Servable(d, WriteRequest(id, block), f, w)
    requires d.torrents[id].FilesForBlock(m) == Some([(f, v)])
    requires w.offset <= v.offset && v.End() <= w.End() && block.data != []
    ensures var (d', outs) := Run(d, Visit(d, WriteRequest(id, block), w.length));
            var outs' := Run(d', Visit(d', ReadRequest(id, m), v.length)).1;
            && outs[2] == Answer(Some(Key(true, id, block.metadata)), PieceWritten(id, block))
            && outs'[2] == Answer(Some(Key(false, id, m)),
                                  BlockRead(id, Block(m, block.data[v.offset - w.offset..v.End() - w.offset])))
  {
    hide Sound, Run, TorrentFile.FilesForBlock, Disk.IsGoodPiece, AtHand;
    ServedAtOnce(d, WriteRequest(id, block), f, w);
    var d' := Run(d, Visit(d, WriteRequest(id, block), w.length)).0;
    ServedAtOnce(d', ReadRequest(id, m), f, v);
    SliceOfSlice(d'.files.At(f.id), w.offset, w.End(), v.offset - w.offset, v.End() - w.offset);
  }
}
