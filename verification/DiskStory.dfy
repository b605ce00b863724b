/** A run in which a piece is written and read back: the conditions of the theorems about runs can be met
    (src/disk/manager.rs). */
module DiskStory {
  import opened Collections
  import opened Messages
  import opened Blocks
  import opened DiskFiles
  import opened DiskJobs
  import opened DiskManagers
  import opened DiskRuns
  import opened Provenance
  import opened Exclusivity
  import opened Tracks
  import opened WrittenLog
  import opened DiskHistories
  import opened WholeWrites
  import Builder
  import Layout
  import Swarm
  import Peers
  import OwnedBits
  import Downloads

  const ID := FileId(0, 0)
  const FILE := FileEntry(ID, 0, 1)
  const META := BlockMetadata(0, 0, 1)
  const BLOCK := Block(META, [7])
  const WINDOW := FileWindow(0, 1)
  const TORRENT := TorrentFile(0, [[7]], 1, [FILE])
  const TRANSFER := [FileIo(SeekDone, Moved(1))]

  /** A hash without collisions. */
  function Sha(x: Bytes): Digest {
    x
  }

  /** A manager with one slot in its cache. */
  function World(active: seq<Job>, state: Option<FileState>, known: bool, queue: seq<Message>, content: Bytes): Disk {
    Disk(active,
         if state.Some? then Cache(1, [ID], map[ID := state.value]) else Cache(1, [], map[]),
         if known then map[0 := TORRENT] else map[],
         queue,
         if content == [] then Files(map[]) else Files(map[ID := content]),
         Sha)
  }

  const WRITING := Job(true, 0, META, [Part(ID, 0, WINDOW, Seek, [7], 0)])
  const READING := Job(false, 0, META, [Part(ID, 1, WINDOW, Seek, [], 0)])

  /** The states of the run, one after the other. */
  function Scene(i: nat): Disk {
    match i
    case 0 => World([], None, false, [], [])
    case 1 => World([], None, false, [AddTorrent(TORRENT)], [])
    case 2 => World([], None, true, [], [])
    case 3 => World([], None, true, [Submit(WriteRequest(0, BLOCK))], [])
    case 4 => World([WRITING], Some(Busy(WINDOW)), true, [], [])
    case 5 => World([], Some(Ready(1)), true, [], [7])
    case 6 => World([], Some(Ready(1)), true, [Submit(ReadRequest(0, META))], [7])
    case 7 => World([READING], Some(Busy(WINDOW)), true, [], [7])
    case _ => World([], Some(Ready(1)), true, [], [7])
  }

  const EVENTS: seq<Event> := [
    Enqueue(AddTorrent(TORRENT)), Pop([]), Enqueue(Submit(WriteRequest(0, BLOCK))), Pop([Opened]), PollJob(0, TRANSFER),
    Enqueue(Submit(ReadRequest(0, META))), Pop([]), PollJob(0, TRANSFER)]

  const WRITTEN := Answer(Some(Key(true, 0, META)), PieceWritten(0, BLOCK))
  const READ := Answer(Some(Key(false, 0, META)), BlockRead(0, BLOCK))

  // ---------------------------------------------------------------- the steps

  lemma OneWindow()
    ensures TORRENT.FilesForBlock(META) == Some([(FILE, WINDOW)])
    ensures WellLaid(TORRENT) && Grounded(TORRENT)
  {
    assert FILE in TORRENT.files;
  }

  lemma Enqueues()
    ensures Step(Scene(0), EVENTS[0]).0 == Scene(1)
    ensures Step(Scene(2), EVENTS[2]).0 == Scene(3)
    ensures Step(Scene(5), EVENTS[5]).0 == Scene(6)
  {
    assert forall m: Message :: [] + [m] == [m];
    assert Scene(2).Enqueue(EVENTS[2].message) == Scene(3);
  }

  lemma Adds()
    ensures Step(Scene(1), EVENTS[1]).0 == Scene(2)
  {
  }

  lemma StartsWriting()
    ensures Step(Scene(3), EVENTS[3]).0 == Scene(4)
  {
    OneWindow();
    hide TorrentFile.FilesForBlock, InsertAll, Gather, AcquireFiles;
    var d := Scene(3).(queue := []);
    var c := Cache(1, [], map[]);
    AcquireOne(c, FILE, WINDOW);
    assert Without([], ID) == [] && [] + [ID] == [ID];
    assert c.Insert(ID, Busy(WINDOW)) == Cache(1, [ID], map[ID := Busy(WINDOW)]);
    assert d.IsGoodPiece(0, BLOCK) && [] + [WRITING] == [WRITING] && Scene(3).queue[1..] == [];
    assert d.Start(WriteRequest(0, BLOCK), [Opened]) == (Scene(4), Quiet);
  }

  lemma GivesBack(job: Job)
    requires |job.parts| == 1 && job.parts[0].file == ID
    ensures InsertAll(Cache(1, [ID], map[ID := Busy(WINDOW)]), ReadyOf(job.parts))
         == Cache(1, [ID], map[ID := Ready(job.parts[0].cursor)])
    ensures SwapRemove([job], 0) == []
  {
    var c := Cache(1, [ID], map[ID := Busy(WINDOW)]);
    var entries := ReadyOf(job.parts);
    assert Without([ID], ID) == [] && [] + [ID] == [ID];
    assert entries[1..] == [];
    assert InsertAll(c, entries) == InsertAll(c.Insert(ID, entries[0].1), entries[1..]) == c.Insert(ID, entries[0].1);
  }

  /** Polling a job of one part is polling the part. */
  lemma PollsOne(write: bool, p: Part, files: Files)
    requires PollPart(write, p, files.At(p.file), TRANSFER[0]).PartPoll?
    ensures var q := PollPart(write, p, files.At(p.file), TRANSFER[0]);
            PollParts(write, [p], files, TRANSFER) == JobPoll([q.part], files.Put(q.part.file, q.content), q.ready)
  {
    hide PollPart;
    var q := PollPart(write, p, files.At(p.file), TRANSFER[0]);
    assert [p][1..] == [] && TRANSFER[1..] == [] && [q.part] + [] == [q.part];
  }

  lemma Writes()
    ensures Step(Scene(4), EVENTS[4]) == (Scene(5), WRITTEN)
  {
    var p := WRITING.parts[0];
    assert WriteAt([], 0, [7]) == [7] && p.block[0..1] == [7];
    var q := p.(cursor := 1, moved := 1, phase := Done);
    assert PollWrite(p, [], TRANSFER[0]) == PartPoll(q, [7], true);
    PollsOne(true, p, Files(map[]));
    GivesBack(WRITING.(parts := [q]));
    GivesBack(WRITING);
    hide PollParts, InsertAll, SwapRemove, PollWrite;
  }

  lemma TakesReady()
    ensures AcquireFiles(Cache(1, [ID], map[ID := Ready(1)]), [(FILE, WINDOW)], [])
         == FilesReady(Cache(1, [ID], map[ID := Busy(WINDOW)]), [Grab(ID, 1, WINDOW)])
  {
    var c, files, g := Cache(1, [ID], map[ID := Ready(1)]), [(FILE, WINDOW)], Grab(ID, 1, WINDOW);
    assert Without([ID], ID) == [] && c.Remove(ID) == Cache(1, [], map[]);
    assert files[1..] == [] && [] + [g] == [g];
    assert Gather(c, files, [], [], true) == Gather(c.Remove(ID), files[1..], [], [] + [g], true)
                                          == Gathered(c.Remove(ID), [g], true);
    var entries := BusyOf([g]);
    assert Without([], ID) == [] && [] + [ID] == [ID] && entries[1..] == [];
    assert InsertAll(c.Remove(ID), entries) == InsertAll(c.Remove(ID).Insert(ID, Busy(WINDOW)), entries[1..]);
  }

  lemma StartsReading()
    ensures Step(Scene(6), EVENTS[6]).0 == Scene(7)
  {
    OneWindow();
    TakesReady();
    hide TorrentFile.FilesForBlock, InsertAll, Gather, AcquireFiles, ReadParts;
    var d := Scene(6).(queue := []);
    ReadPartsOf([Grab(ID, 1, WINDOW)]);
    assert ReadParts([Grab(ID, 1, WINDOW)]) == READING.parts;
    assert [] + [READING] == [READING] && Scene(6).queue[1..] == [];
    assert d.Start(ReadRequest(0, META), []) == (Scene(7), Quiet);
  }

  lemma Reads()
    ensures Step(Scene(7), EVENTS[7]) == (Scene(8), READ)
  {
    var p := READING.parts[0];
    var q := p.(cursor := 1, moved := 1, phase := Done, block := [7]);
    assert [7][0..1] == [7] && [] + [7] == [7];
    assert PollRead(p, [7], TRANSFER[0]) == PartPoll(q, [7], true);
    var files := Files(map[ID := [7]]);
    assert files.Put(ID, [7]) == files;
    PollsOne(false, p, files);
    GivesBack(READING.(parts := [q]));
    GivesBack(READING);
    hide PollParts, InsertAll, SwapRemove, PollRead;
  }

  lemma {:induction false} SceneAt(i: nat)
    requires i <= 8
    ensures StateAt(Scene(0), EVENTS, i) == Scene(i)
  {
    hide Scene, Step, Run;
    if i == 0 {
      assert EVENTS[..0] == [];
      EmptyRun(Scene(0));
    } else {
      SceneAt(i - 1);
      RunStep(Scene(0), EVENTS, i - 1);
      Enqueues();
      Adds();
      StartsWriting();
      Writes();
      StartsReading();
      Reads();
    }
  }

  // ---------------------------------------------------------------- the conditions

  /** The one file fits into the cache. */
  lemma OneFileFits(d: Disk, e: Event)
    requires d.cache.states.Keys <= {ID} && d.cache.capacity == 1
    requires forall x :: x in WantedFiles(d) ==> x.0 == FILE
    ensures Roomy(d, e)
  {
    SubsetSize(d.cache.states.Keys + FileIds(WantedFiles(d)), {ID});
  }

  lemma SceneIsRoomy(i: nat)
    requires i < |EVENTS|
    ensures Roomy(Scene(i), EVENTS[i])
  {
    OneWindow();
    hide TorrentFile.FilesForBlock, FileIds;
    OneFileFits(Scene(i), EVENTS[i]);
  }

  lemma PlacedThere()
    ensures Placed(Scene(3).torrents, 0, META, FILE)
  {
  }

  lemma WritesWhole()
    ensures HeadWhole(Scene(3))
  {
    hide Placed;
    PlacedThere();
    assert InOneFile(Scene(3), 0, META);
    hide InOneFile;
  }

  lemma OthersWriteNothing()
    ensures HeadWhole(Scene(1)) && HeadWhole(Scene(6))
  {
  }

  lemma SmoothTransfers()
    ensures SmoothJob(Scene(4), WRITING, TRANSFER) && SmoothJob(Scene(7), READING, TRANSFER)
  {
  }

  lemma MessagesOk()
    ensures Possible(EVENTS[0]) && Possible(EVENTS[2]) && Possible(EVENTS[5])
  {
    OneWindow();
    hide WellLaid;
  }

  lemma SceneIsCareful(i: nat)
    requires i < |EVENTS|
    ensures Careful(Scene(i), EVENTS[i])
  {
    hide HeadWhole, SmoothJob, Roomy, WellLaid, Grounded, MessageOk, TorrentFile.FilesForBlock;
    OneWindow();
    MessagesOk();
    WritesWhole();
    OthersWriteNothing();
    SmoothTransfers();
    SceneIsRoomy(i);
  }

  lemma StoryIsCareful()
    ensures Scene(0) == NewDisk(1, Files(map[]), Sha) && CarefulRun(Scene(0), EVENTS)
    ensures Run(Scene(0), EVENTS).1[4] == WRITTEN && Run(Scene(0), EVENTS).1[7] == READ
  {
    Opening();
    hide Scene, Step, Run, Careful;
    Writes();
    Reads();
    SceneAt(4);
    SceneAt(7);
    RunStep(Scene(0), EVENTS, 4);
    RunStep(Scene(0), EVENTS, 7);
    forall i | 0 <= i < |EVENTS|
      ensures Careful(StateAt(Scene(0), EVENTS, i), EVENTS[i])
    {
      SceneAt(i);
      SceneIsCareful(i);
    }
  }

  lemma Opening()
    ensures Scene(0) == NewDisk(1, Files(map[]), Sha)
  {
  }

  /** A piece is reported written and a block of it is read later, in a careful and so allowed run of a new
      manager. */
  lemma ReadAfterWriteHappens()
    ensures var s := Initial(1, Files(map[]), Sha);
            && SysInv(s) && Orderly(s) && AllowedRun(s, EVENTS) && CarefulRun(s.disk, EVENTS)
            && ResultOf(s, EVENTS, 4) == WRITTEN && ResultOf(s, EVENTS, 7) == READ
            && Placed(StateAt(s.disk, EVENTS, 4).torrents, 0, META, FILE) && Within(META, META)
  {
    hide Scene, Run, SysInv, Orderly, AllowedRun, CarefulRun, Placed;
    var s := Initial(1, Files(map[]), Sha);
    StoryIsCareful();
    InitialIsFine(1, Files(map[]), Sha);
    InitialIsOrderly(1, Files(map[]), Sha);
    WholeWritesAreAllowed(s, EVENTS);
    SceneAt(4);
    StillPlaced();
  }

  lemma StillPlaced()
    ensures Placed(Scene(4).torrents, 0, META, FILE)
  {
    PlacedThere();
    hide Placed;
  }

  // ---------------------------------------------------------------- the torrent

  const CONTENT := Layout.Torrent([7], 1)

  lemma OneChunk()
    ensures CONTENT.Valid() && Builder.Chunks(CONTENT.content, 1) == [[7]] && CONTENT.PieceCount() == 1
    ensures CONTENT.LengthOf(0) == 1 && CONTENT.HasBlock(META) && Swarm.FitsTheWire(CONTENT)
  {
    assert Layout.LastPieceLength(1, 1, 1) == 1;
    assert WholeBlocks(0, 0) == [];
    assert Partition(0, 1) == [] + [META];
  }

  lemma ManagerKnows()
    ensures Swarm.KnowsSingle(Scene(4), 0, CONTENT)
  {
    OneChunk();
    var chunks := Builder.Chunks(CONTENT.content, 1);
    assert chunks[1..] == [];
    assert Builder.HashAll(chunks) == [Builder.Hasher([7])] + Builder.HashAll(chunks[1..]);
    assert Swarm.Digests(Builder.HashAll(chunks), Sha) == [[7]];
    assert [1][1..] == [];
    assert Entries(0, [1], 0, 0) == [FILE] + Entries(0, [1][1..], 1, 1);
  }

  /** The whole way, once: the one block of a torrent of one byte is written, read, and ready for the next peer. */
  lemma SeedingHappens()
    ensures var d := NewDisk(1, Files(map[]), Sha);
            && CarefulRun(d, EVENTS) && Swarm.WritesThenReads(CONTENT, 0, d, EVENTS, 4, 7)
            && Run(d, EVENTS).1[7] == READ && Swarm.Seedable(CONTENT, BLOCK)
  {
    hide Scene, Run, CarefulRun, Swarm.KnowsSingle, Swarm.Seedable, Swarm.FitsTheWire, Layout.Torrent.HasBlock;
    StoryIsCareful();
    SceneAt(4);
    OneChunk();
    ManagerKnows();
    KnowsIt();
    Swarm.SeedingFromTheStart(CONTENT, 0, 1, Files(map[]), Sha, EVENTS, 4, 7);
  }

  lemma KnowsIt()
    requires Swarm.KnowsSingle(Scene(4), 0, CONTENT)
    ensures Swarm.WritesPiece(CONTENT, 0, Scene(4), WRITTEN)
  {
    OneChunk();
    hide Builder.Chunks, Builder.HashAll;
  }

  // ---------------------------------------------------------------- the peer

  const CATALOGUE: Peers.Catalogue := map[0 := CONTENT]

  /** The block is what a scheduler of the torrent reports when a peer sends it. */
  lemma BlockIsScheduled()
    ensures Peers.Scheduled(CONTENT, BLOCK)
  {
    OneChunk();
    OwnedBits.BitIsSet(7);
    hide Downloads.Run, Downloads.AdmissibleRun, Builder.Chunks;
    assert Layout.LastPieceLength(1, 1, 1) == 1;
    assert Peers.ReportedAt(CONTENT, BLOCK, OwnedBits.EMPTY, OwnedBits.Story(7), 5);
  }

  lemma TorrentIsOurs()
    ensures Peers.AllValid(CATALOGUE) && TORRENT == Peers.FileOf(0, CONTENT, Sha)
  {
    OneChunk();
    ManagerKnows();
  }

  lemma NothingForged()
    ensures Peers.AllValid(CATALOGUE) && Peers.Equipped(CATALOGUE, 1, Sha)
  {
    TorrentIsOurs();
    assert Peers.Slots(CATALOGUE) == {FileId(0, 0)};
  }

  /** The run is one of a peer whose scheduler hands over the piece. */
  lemma StoryOfAPeer()
    ensures var d := NewDisk(1, Files(map[]), Sha);
            && Peers.Equipped(CATALOGUE, 1, Sha) && Peers.PeerRun(CATALOGUE, d, EVENTS)
            && Run(d, EVENTS).1[4] == WRITTEN && Run(d, EVENTS).1[7] == READ
  {
    NothingForged();
    TorrentIsOurs();
    BlockIsScheduled();
    SmoothTransfers();
    StoryIsCareful();
    hide Run, CarefulRun, Peers.Scheduled, Peers.Equipped, SmoothJob;
    forall i | 0 <= i < |EVENTS|
      ensures Peers.PeerStep(CATALOGUE, StateAt(Scene(0), EVENTS, i), EVENTS[i])
    {
      SceneAt(i);
    }
  }
}
