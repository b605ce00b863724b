/** What follows when the cache drops the mark of a file in use: two jobs on one file (src/disk/manager.rs). */
module Evictions {
  import opened Collections
  import opened Messages
  import opened Blocks
  import opened DiskFiles
  import opened DiskJobs
  import opened DiskManagers
  import opened DiskRuns
  import opened Provenance
  import opened Exclusivity

  /** Two different active jobs hold the file. */
  predicate Shared(s: Disk, i: nat, j: nat, id: FileId) {
    && i < j < |s.active|
    && (exists p :: p in s.active[i].parts && p.file == id)
    && (exists p :: p in s.active[j].parts && p.file == id)
  }

  lemma SharedIsNotExclusive(s: Disk, i: nat, j: nat, id: FileId)
    requires Shared(s, i, j, id)
    ensures !Exclusive(s)
  {
    var p :| p in s.active[i].parts && p.file == id;
    var q :| q in s.active[j].parts && q.file == id;
    if Exclusive(s) {
      JobsAreDisjoint(s, i, j, p, q);
      assert false;
    }
  }

  /** A job that starts on the one file of its block, which the cache does not know and which opens at once. */
  lemma StartsOnOne(s: Disk, r: Request, f: FileEntry, w: FileWindow)
    requires r.torrent in s.torrents && f.id !in s.cache.states
    requires r.WriteRequest? ==> s.IsGoodPiece(r.torrent, r.block)
    requires s.torrents[r.torrent].FilesForBlock(KeyOf(r).metadata) == Some([(f, w)])
    ensures var part := Part(f.id, 0, w, Seek, if r.WriteRequest? then r.block.data else [], 0);
            var job := Job(r.WriteRequest?, r.torrent, KeyOf(r).metadata, [part]);
            s.Start(r, [Opened]) == (s.(cache := s.cache.Insert(f.id, Busy(w)), active := s.active + [job]), Quiet)
  {
    hide AcquireFiles, TorrentFile.FilesForBlock, Cache.Insert, ReadParts;
    AcquireOne(s.cache, f, w);
    ReadPartsOf([Grab(f.id, 0, w)]);
    assert ReadParts([Grab(f.id, 0, w)]) == [Part(f.id, 0, w, Seek, [], 0)];
  }

  /** Once the mark of a file in use is lost, the next request for that file gets a second handle on it. */
  lemma LostMarkShares(s: Disk, r: Request, f: FileEntry, w: FileWindow, k: nat)
    requires k < |s.active| && exists p :: p in s.active[k].parts && p.file == f.id
    requires r.torrent in s.torrents && f.id !in s.cache.states
    requires r.WriteRequest? ==> s.IsGoodPiece(r.torrent, r.block)
    requires s.torrents[r.torrent].FilesForBlock(KeyOf(r).metadata) == Some([(f, w)])
    ensures var s' := s.Start(r, [Opened]).0; Shared(s', k, |s.active|, f.id) && !Exclusive(s')
  {
    hide Disk.Start, TorrentFile.FilesForBlock, Exclusive;
    StartsOnOne(s, r, f, w);
    var s' := s.Start(r, [Opened]).0;
    var part := s'.active[|s.active|].parts[0];
    assert part in s'.active[|s.active|].parts && part.file == f.id;
    assert s'.active[k] == s.active[k];
    SharedIsNotExclusive(s', k, |s.active|, f.id);
  }

  // ---------------------------------------------------------------- it happens

  const FIRST := FileEntry(FileId(0, 0), 0, 1)
  const SECOND := FileEntry(FileId(0, 1), 1, 1)
  const TWO_FILES := TorrentFile(0, [[], []], 1, [FIRST, SECOND])
  const WINDOW := FileWindow(0, 1)

  function Block1(i: nat): BlockMetadata {
    BlockMetadata(i, 0, 1)
  }

  function Ask(i: nat): Message {
    Submit(ReadRequest(0, Block1(i)))
  }

  /** A torrent of two files is added, and three blocks are asked for: of the first, the second, the first file. */
  const EVENTS: seq<Event> := [
    Enqueue(AddTorrent(TWO_FILES)), Pop([]), Enqueue(Ask(0)), Pop([Opened]), Enqueue(Ask(1)), Pop([Opened]),
    Enqueue(Ask(0)), Pop([Opened])]

  function Reading(i: nat): Job {
    Job(false, 0, Block1(i), [Part(FileId(0, i), 0, WINDOW, Seek, [], 0)])
  }

  function Holding(i: nat): Cache {
    Cache(1, [FileId(0, i)], map[FileId(0, i) := Busy(WINDOW)])
  }

  /** The states of the run, on any files and with any hash; the cache has room for one handle. */
  function States(files: Files, sha: Bytes -> Digest): seq<Disk> {
    var d := NewDisk(1, files, sha);
    var t := d.(torrents := map[0 := TWO_FILES]);
    var one := t.(cache := Holding(0), active := [Reading(0)]);
    var two := t.(cache := Holding(1), active := [Reading(0), Reading(1)]);
    var three := t.(cache := Holding(0), active := [Reading(0), Reading(1), Reading(0)]);
    [d, d.(queue := [AddTorrent(TWO_FILES)]), t, t.(queue := [Ask(0)]), one, one.(queue := [Ask(1)]), two,
     two.(queue := [Ask(0)]), three]
  }

  lemma TheirWindows()
    ensures TWO_FILES.FilesForBlock(Block1(0)) == Some([(FIRST, WINDOW)])
    ensures TWO_FILES.FilesForBlock(Block1(1)) == Some([(SECOND, WINDOW)])
    ensures WellLaid(TWO_FILES)
  {
    hide TorrentFile.FilesForBlock;
    assert FIRST in TWO_FILES.files && SECOND in TWO_FILES.files;
    WindowExact(TWO_FILES, Block1(0));
    WindowExact(TWO_FILES, Block1(1));
    assert IsExact(TWO_FILES, Block1(0), FIRST) && IsExact(TWO_FILES, Block1(1), SECOND);
  }

  lemma Replaces(i: nat, j: nat)
    requires i != j
    ensures Holding(i).Insert(FileId(0, j), Busy(WINDOW)) == Holding(j)
  {
    var gone, kept := FileId(0, i), FileId(0, j);
    assert [gone][1..] == [] && Without([], kept) == [] && Without([gone], kept) == [gone];
    assert ([gone] + [kept])[1..] == [kept];
    assert map[gone := Busy(WINDOW)][kept := Busy(WINDOW)] - {gone} == map[kept := Busy(WINDOW)];
  }

  lemma FillsEmpty()
    ensures Cache(1, [], map[]).Insert(FileId(0, 0), Busy(WINDOW)) == Holding(0)
  {
    assert Without([], FileId(0, 0)) == [] && [] + [FileId(0, 0)] == [FileId(0, 0)];
  }

  lemma Queues(files: Files, sha: Bytes -> Digest)
    ensures var ds := States(files, sha);
            && Step(ds[0], EVENTS[0]).0 == ds[1] && Step(ds[1], EVENTS[1]).0 == ds[2]
            && Step(ds[2], EVENTS[2]).0 == ds[3]
            && Step(ds[4], EVENTS[4]).0 == ds[5] && Step(ds[6], EVENTS[6]).0 == ds[7]
  {
    assert forall m: Message :: [] + [m] == [m];
    var ds := States(files, sha);
    assert ds[1].queue[1..] == [];
    assert ds[2].Enqueue(Ask(0)) == ds[3] && ds[4].Enqueue(Ask(1)) == ds[5] && ds[6].Enqueue(Ask(0)) == ds[7];
  }

  /** Taking a request off the queue when its file is not in the cache. */
  lemma PopStarts(d: Disk, i: nat, f: FileEntry)
    requires d.queue == [Ask(i)] && d.torrents == map[0 := TWO_FILES] && f.id !in d.cache.states && f.id == FileId(0, i)
    requires TWO_FILES.FilesForBlock(Block1(i)) == Some([(f, WINDOW)])
    ensures d.Pop([Opened]).0
         == d.(queue := [], cache := d.cache.Insert(f.id, Busy(WINDOW)), active := d.active + [Reading(i)])
  {
    hide Disk.Start, TorrentFile.FilesForBlock, Cache.Insert;
    assert d.queue[1..] == [];
    StartsOnOne(d.(queue := []), ReadRequest(0, Block1(i)), f, WINDOW);
  }

  lemma Starts(files: Files, sha: Bytes -> Digest)
    ensures var ds := States(files, sha);
            Step(ds[3], EVENTS[3]).0 == ds[4] && Step(ds[5], EVENTS[5]).0 == ds[6] && Step(ds[7], EVENTS[7]).0 == ds[8]
  {
    var ds := States(files, sha);
    TheirWindows();
    FillsEmpty();
    Replaces(0, 1);
    Replaces(1, 0);
    hide Disk.Pop, TorrentFile.FilesForBlock, Cache.Insert;
    PopStarts(ds[3], 0, FIRST);
    PopStarts(ds[5], 1, SECOND);
    PopStarts(ds[7], 0, FIRST);
    assert [] + [Reading(0)] == [Reading(0)];
    assert [Reading(0)] + [Reading(1)] == [Reading(0), Reading(1)];
    assert [Reading(0), Reading(1)] + [Reading(0)] == [Reading(0), Reading(1), Reading(0)];
  }

  /** From a new manager whose cache holds one handle: opening the second file drops the mark of the first, which is in
      use, and the third request gets a second job on the first file. */
  lemma TwoJobsOneFile(files: Files, sha: Bytes -> Digest)
    ensures var d := NewDisk(1, files, sha);
            && PossibleRun(EVENTS) && NoCrash(Run(d, EVENTS).1)
            && !StateAt(d, EVENTS, 6).cache.IsBusy(FIRST.id) && !Exclusive(StateAt(d, EVENTS, 6))
            && Shared(Run(d, EVENTS).0, 0, 2, FIRST.id) && !Exclusive(Run(d, EVENTS).0)
  {
    var ds := States(files, sha);
    Queues(files, sha);
    Starts(files, sha);
    EventsArePossible();
    StoryEnds(files, sha);
    hide Step, Exclusive, Shared, PossibleRun;
    RunStates(ds, EVENTS);
    RunStates(ds[..7], EVENTS[..6]);
    NoneCrashed(files, sha);
  }

  lemma EventsArePossible()
    ensures PossibleRun(EVENTS)
  {
    TheirWindows();
  }

  lemma NoneCrashed(files: Files, sha: Bytes -> Digest)
    ensures var ds := States(files, sha); forall i :: 0 <= i < 8 ==> !Step(ds[i], EVENTS[i]).1.Crash?
  {
    var ds := States(files, sha);
    TheirWindows();
    hide TorrentFile.FilesForBlock, Cache.Insert, Disk.Start;
    StartsOnOne(ds[3].(queue := []), ReadRequest(0, Block1(0)), FIRST, WINDOW);
    StartsOnOne(ds[5].(queue := []), ReadRequest(0, Block1(1)), SECOND, WINDOW);
    StartsOnOne(ds[7].(queue := []), ReadRequest(0, Block1(0)), FIRST, WINDOW);
    assert ds[3].queue[1..] == [] && ds[5].queue[1..] == [] && ds[7].queue[1..] == [];
  }

  lemma StoryEnds(files: Files, sha: Bytes -> Digest)
    ensures var ds := States(files, sha);
            && !ds[6].cache.IsBusy(FIRST.id) && !Exclusive(ds[6])
            && Shared(ds[8], 0, 2, FIRST.id) && !Exclusive(ds[8])
  {
    var ds := States(files, sha);
    var p := Reading(0).parts[0];
    assert p in ds[8].active[0].parts && p in ds[8].active[2].parts;
    assert p in ds[6].active[0].parts;
    hide Exclusive;
    SharedIsNotExclusive(ds[8], 0, 2, FIRST.id);
    HeldUnmarked(ds[6], 0, p);
  }

  lemma HeldUnmarked(s: Disk, k: nat, p: Part)
    requires k < |s.active| && p in s.active[k].parts && !s.cache.IsBusy(p.file)
    ensures !Exclusive(s)
  {
    hide Sum;
    SumMember(s.active, HeldBy, k);
    PartInSum(s.active[k].parts, p.file);
    assert HeldBy(s.active[k])[p.file] <= Held(s)[p.file];
    Unmarked(Held(s), s.cache, p.file);
  }
}
