/** No two active jobs hold the same file: the Busy marks of the handle cache are exact
    (src/disk/manager.rs). */
module Exclusivity {
  import opened Collections
  import opened Messages
  import opened DiskFiles
  import opened DiskJobs
  import opened DiskManagers
  import opened DiskRuns
  import opened Provenance

  function PartFile(p: Part): multiset<FileId> {
    multiset{p.file}
  }

  /** The files a job holds. */
  ghost function HeldBy(j: Job): multiset<FileId> {
    Sum(j.parts, PartFile)
  }

  ghost function Held(s: Disk): multiset<FileId> {
    Sum(s.active, HeldBy)
  }

  /** A file is marked busy exactly when one active job holds it, and no file is held twice. */
  ghost predicate BusyIsHeld(held: multiset<FileId>, c: Cache) {
    forall id :: held[id] == if c.IsBusy(id) then 1 else 0
  }

  ghost predicate Exclusive(s: Disk) {
    CacheOk(s.cache) && BusyIsHeld(Held(s), s.cache)
  }

  ghost predicate Inv(s: Disk) {
    Exclusive(s) && TorrentsOk(s)
  }

  /** The files the first message of the queue asks for. */
  function WantedFiles(s: Disk): seq<(FileEntry, FileWindow)> {
    if s.queue == [] || !s.queue[0].Submit? || s.queue[0].request.torrent !in s.torrents then []
    else
      var files := s.torrents[s.queue[0].request.torrent].FilesForBlock(KeyOf(s.queue[0].request).metadata);
      if files.Some? then files.value else []
  }

  /** What the cache needs: room for the files of the message that is taken off the queue. */
  ghost predicate Roomy(s: Disk, e: Event) {
    e.Pop? ==> |s.cache.states.Keys + FileIds(WantedFiles(s))| <= s.cache.capacity
  }

  // ---------------------------------------------------------------- polling a job

  lemma {:induction false} PollKeepsFiles(write: bool, parts: seq<Part>, files: Files, ios: seq<FileIo>)
    requires PollParts(write, parts, files, ios).JobPoll?
    ensures var r := PollParts(write, parts, files, ios);
            && |r.parts| == |parts|
            && (forall i :: 0 <= i < |parts| ==> r.parts[i].file == parts[i].file)
            && Sum(r.parts, PartFile) == Sum(parts, PartFile)
    decreases |parts|
  {
    if parts != [] {
      var io := if ios == [] then NO_IO else ios[0];
      var r := PollPart(write, parts[0], files.At(parts[0].file), io);
      assert r.part.file == parts[0].file;
      hide PollPart;
      PollKeepsFiles(write, parts[1..], files.Put(r.part.file, r.content), if ios == [] then [] else ios[1..]);
    }
  }

  lemma {:induction false} PartInSum(parts: seq<Part>, id: FileId)
    ensures Sum(parts, PartFile)[id] > 0 <==> exists p :: p in parts && p.file == id
  {
    if parts != [] {
      PartInSum(parts[1..], id);
      assert parts == [parts[0]] + parts[1..];
    }
  }

  /** A job that finishes hands its files back: they were busy, and now they are not. */
  lemma GiveBackKeeps(held: multiset<FileId>, c: Cache, parts: seq<Part>)
    requires CacheOk(c) && BusyIsHeld(held + Sum(parts, PartFile), c)
    ensures var c' := InsertAll(c, ReadyOf(parts));
            CacheOk(c') && BusyIsHeld(held, c') && c'.states.Keys == c.states.Keys
  {
    var entries := ReadyOf(parts);
    var mine := Sum(parts, PartFile);
    forall id
      ensures id in EntryKeys(entries) <==> mine[id] > 0
    {
      PartInSum(parts, id);
      if id in EntryKeys(entries) {
        var i :| 0 <= i < |entries| && entries[i].0 == id;
        assert parts[i] in parts;
      }
      if exists p :: p in parts && p.file == id {
        var i :| 0 <= i < |parts| && parts[i].file == id;
        assert entries[i] in entries;
      }
    }
    FitsItself(c);
    hide Sum, CacheOk, EntryKeys, InsertAll, Room;
    forall id | id in EntryKeys(entries)
      ensures id in c.states
    {
      assert (held + mine)[id] > 0;
    }
    InsertAllFits(c, entries, false, c.states.Keys);
    forall id
      ensures held[id] == if InsertAll(c, entries).IsBusy(id) then 1 else 0
    {
      assert (held + mine)[id] == if c.IsBusy(id) then 1 else 0;
    }
  }

  lemma PollJobKeeps(s: Disk, k: nat, ios: seq<FileIo>)
    requires k < |s.active| && Exclusive(s) && !s.PollJob(k, ios).1.Crash?
    ensures Exclusive(s.PollJob(k, ios).0)
    ensures s.PollJob(k, ios).0.torrents == s.torrents && s.PollJob(k, ios).0.queue == s.queue
  {
    var job, rest := s.active[k], SwapRemove(s.active, k);
    SumSwapRemove(s.active, k, HeldBy);
    PollKeepsFiles(job.write, job.parts, s.files, ios);
    hide PollParts, Sum, CacheOk, InsertAll, Finalize;
    var r := PollParts(job.write, job.parts, s.files, ios);
    var job' := job.(parts := r.parts);
    assert HeldBy(job') == HeldBy(job);
    if r.ready {
      GiveBackKeeps(Sum(rest, HeldBy), s.cache, r.parts);
    } else {
      SumAppend(rest, [job'], HeldBy);
      SumOne(job', HeldBy);
    }
  }

  // ---------------------------------------------------------------- taking a message

  function GrabFile(g: Grab): multiset<FileId> {
    multiset{g.file}
  }

  lemma {:induction false} GrabsHeld(grabs: seq<Grab>, id: FileId)
    requires forall i, j :: 0 <= i < j < |grabs| ==> grabs[i].file != grabs[j].file
    ensures Sum(grabs, GrabFile)[id] == if id in GrabIds(grabs) then 1 else 0
  {
    if grabs != [] {
      GrabsHeld(grabs[1..], id);
      assert grabs == [grabs[0]] + grabs[1..];
      assert GrabIds(grabs) == {grabs[0].file} + GrabIds(grabs[1..]);
      assert grabs[0].file !in GrabIds(grabs[1..]);
    }
  }

  /** Parts made from grabs, one by one, hold the files of the grabs. */
  lemma {:induction false} SameFiles(parts: seq<Part>, grabs: seq<Grab>)
    requires |parts| == |grabs| && forall i :: 0 <= i < |grabs| ==> parts[i].file == grabs[i].file
    ensures Sum(parts, PartFile) == Sum(grabs, GrabFile)
    decreases |grabs|
  {
    if grabs != [] {
      SameFiles(parts[1..], grabs[1..]);
    }
  }

  lemma PartsOfGrabs(grabs: seq<Grab>, data: Bytes)
    ensures Sum(ReadParts(grabs), PartFile) == Sum(grabs, GrabFile)
    ensures Fragments(grabs, data, 0).Some? ==> Sum(Fragments(grabs, data, 0).value, PartFile) == Sum(grabs, GrabFile)
    ensures |grabs| == 1 ==> Sum([WritePart(grabs[0], data)], PartFile) == Sum(grabs, GrabFile)
  {
    hide Sum, Fragments, ReadParts;
    ReadPartsOf(grabs);
    SameFiles(ReadParts(grabs), grabs);
    if Fragments(grabs, data, 0).Some? {
      FragmentsOf(grabs, data, 0);
      SameFiles(Fragments(grabs, data, 0).value, grabs);
    }
    if |grabs| == 1 {
      SameFiles([WritePart(grabs[0], data)], grabs);
    }
  }

  lemma NoneTaken(c: Cache, all: set<FileId>)
    requires CacheOk(c) && c.states.Keys <= all
    ensures Taken(c, c, [], all)
  {
  }

  /** Acquiring files with room for them marks exactly the files handed out, none of which was busy. */
  lemma AcquireKeeps(held: multiset<FileId>, c: Cache, files: seq<(FileEntry, FileWindow)>, opens: seq<OpenIo>)
    requires CacheOk(c) && BusyIsHeld(held, c)
    requires forall i, j :: 0 <= i < j < |files| ==> files[i].0.id != files[j].0.id
    requires |c.states.Keys + FileIds(files)| <= c.capacity
    ensures match AcquireFiles(c, files, opens)
            case FilesFailed(c') => CacheOk(c') && BusyIsHeld(held, c')
            case FilesPending(c') => CacheOk(c') && BusyIsHeld(held, c')
            case FilesReady(c', grabs) =>
              CacheOk(c') && BusyIsHeld(held + Sum(grabs, GrabFile), c') && Complete(grabs, files)
  {
    var all := c.states.Keys + FileIds(files);
    NoneTaken(c, all);
    GatherTakes(c, files, opens, [], true, c, all);
    AcquireComplete(c, files, opens);
    hide CacheOk, FileIds, Complete, Gather, Taken, BusyIsHeld, Sum, InsertAll, LeftOver;
    match Gather(c, files, opens, [], true)
    case OpenError(c') =>
      LeftOverKeeps(held, c, c', all);
    case Gathered(c', grabs, ready) =>
      InsertGrabs(held, c, c', grabs, all, ready);
  }

  lemma LeftOverKeeps(held: multiset<FileId>, c: Cache, c': Cache, all: set<FileId>)
    requires BusyIsHeld(held, c) && LeftOver(c, c', all)
    ensures CacheOk(c') && BusyIsHeld(held, c')
  {
    var grabs :| Taken(c, c', grabs, all);
  }

  lemma InsertGrabs(held: multiset<FileId>, c: Cache, c': Cache, grabs: seq<Grab>, all: set<FileId>, busy: bool)
    requires BusyIsHeld(held, c) && Taken(c, c', grabs, all) && |all| <= c.capacity
    ensures var r := InsertAll(c', if busy then BusyOf(grabs) else QueuedOf(grabs));
            CacheOk(r) && BusyIsHeld(if busy then held + Sum(grabs, GrabFile) else held, r)
  {
    hide CacheOk, Sum;
    var entries := if busy then BusyOf(grabs) else QueuedOf(grabs);
    assert EntryKeys(entries) == GrabIds(grabs) by { SameKeys(grabs, entries); }
    InsertAllFits(c', entries, busy, all);
    var r := InsertAll(c', entries);
    hide InsertAll, EntryKeys, GrabIds;
    forall id
      ensures (if busy then held + Sum(grabs, GrabFile) else held)[id] == if r.IsBusy(id) then 1 else 0
    {
      GrabsHeld(grabs, id);
      assert held[id] == if c.IsBusy(id) then 1 else 0;
      assert id in GrabIds(grabs) ==> !c'.IsBusy(id);
    }
  }

  lemma SameKeys(grabs: seq<Grab>, entries: seq<(FileId, FileState)>)
    requires |entries| == |grabs| && forall i :: 0 <= i < |grabs| ==> entries[i].0 == grabs[i].file
    ensures EntryKeys(entries) == GrabIds(grabs)
  {
    forall id | id in EntryKeys(entries)
      ensures id in GrabIds(grabs)
    {
      var i :| 0 <= i < |entries| && entries[i].0 == id;
      assert grabs[i] in grabs;
    }
    forall id | id in GrabIds(grabs)
      ensures id in EntryKeys(entries)
    {
      var i :| 0 <= i < |grabs| && grabs[i].file == id;
      assert entries[i] in entries;
    }
  }

  lemma StartKeeps(s: Disk, r: Request, opens: seq<OpenIo>)
    requires Exclusive(s) && !s.Start(r, opens).1.Crash?
    requires r.torrent in s.torrents ==> WellLaid(s.torrents[r.torrent])
    requires r.torrent in s.torrents && s.torrents[r.torrent].FilesForBlock(KeyOf(r).metadata).Some? ==>
               |s.cache.states.Keys + FileIds(s.torrents[r.torrent].FilesForBlock(KeyOf(r).metadata).value)|
               <= s.cache.capacity
    ensures Exclusive(s.Start(r, opens).0)
  {
    hide AcquireFiles, CacheOk, Sum, Fragments, ReadParts, TorrentFile.FilesForBlock;
    if r.torrent in s.torrents && s.torrents[r.torrent].FilesForBlock(KeyOf(r).metadata).Some? {
      var t := s.torrents[r.torrent];
      var files := t.FilesForBlock(KeyOf(r).metadata).value;
      FilesDistinct(t, KeyOf(r).metadata);
      AcquireKeeps(Held(s), s.cache, files, opens);
      var acquired := AcquireFiles(s.cache, files, opens);
      if acquired.FilesReady? {
        var s' := s.Start(r, opens).0;
        PartsOfGrabs(acquired.grabs, if r.WriteRequest? then r.block.data else []);
        if |s'.active| > |s.active| {
          var job := s'.active[|s.active|];
          assert s'.active == s.active + [job];
          SumAppend(s.active, [job], HeldBy);
          SumOne(job, HeldBy);
        }
      }
    }
  }

  lemma PopKeeps(s: Disk, opens: seq<OpenIo>)
    requires s.queue != [] && Inv(s) && Roomy(s, Pop(opens)) && !s.Pop(opens).1.Crash?
    ensures Inv(s.Pop(opens).0)
  {
    hide Disk.Start, CacheOk, Sum, TorrentFile.FilesForBlock, WellLaid, MessageOk;
    PopKeepsTorrents(s, opens);
    var rest := s.(queue := s.queue[1..]);
    if s.queue[0].Submit? {
      assert Held(rest) == Held(s);
      StartKeeps(rest, s.queue[0].request, opens);
    }
  }

  /** File-handle exclusivity is kept by every step that does not run the cache out of room. */
  lemma StepKeeps(s: Disk, e: Event)
    requires Inv(s) && Possible(e) && Roomy(s, e) && !Step(s, e).1.Crash?
    ensures Inv(Step(s, e).0)
  {
    match e
    case Enqueue(m) =>
      hide CacheOk, Sum, WellLaid, MessageOk;
      assert forall x :: x in s.queue + [m] <==> x in s.queue || x == m;
    case PollJob(k, ios) =>
      hide CacheOk, Sum, WellLaid;
      if k < |s.active| {
        hide Disk.PollJob;
        PollJobKeeps(s, k, ios);
      }
    case Pop(opens) =>
      if s.queue != [] {
        PopKeeps(s, opens);
      }
  }

  ghost predicate GoodRun(s: Disk, es: seq<Event>)
    decreases |es|
  {
    es == [] || (Possible(es[0]) && Roomy(s, es[0]) && !Step(s, es[0]).1.Crash? && GoodRun(Step(s, es[0]).0, es[1..]))
  }

  /** File-handle exclusivity over every run. */
  lemma {:induction false} ExclusivityOverRuns(s: Disk, es: seq<Event>)
    requires Inv(s) && GoodRun(s, es)
    ensures Inv(Run(s, es).0)
    decreases |es|
  {
    hide Step, Inv, Possible, Roomy;
    if es != [] {
      StepKeeps(s, es[0]);
      ExclusivityOverRuns(Step(s, es[0]).0, es[1..]);
    }
  }

  /** Two different active jobs never hold the same file. */
  lemma JobsAreDisjoint(s: Disk, i: nat, j: nat, p: Part, q: Part)
    requires Exclusive(s) && i < j < |s.active| && p in s.active[i].parts && q in s.active[j].parts
    ensures p.file != q.file
    ensures s.cache.IsBusy(p.file)
  {
    SumPair(s.active, HeldBy, i, j);
    PartInSum(s.active[i].parts, p.file);
    PartInSum(s.active[j].parts, q.file);
    var both := HeldBy(s.active[i]) + HeldBy(s.active[j]);
    assert both[p.file] <= Held(s)[p.file];
    assert both[p.file] >= if p.file == q.file then 2 else 1;
  }

  // ---------------------------------------------------------------- room for every file

  /** Every file that is known lies in `all`, which the cache has room for. */
  ghost predicate Confined(s: Disk, all: set<FileId>) {
    && |all| <= s.cache.capacity && s.cache.states.Keys <= all
    && (forall t :: t in s.torrents ==> Uses(s.torrents[t], all))
    && (forall m :: m in s.queue && m.AddTorrent? ==> Uses(m.torrent, all))
  }

  ghost predicate Uses(t: TorrentFile, all: set<FileId>) {
    forall f :: f in t.files ==> f.id in all
  }

  ghost predicate ConfinedEvent(e: Event, all: set<FileId>) {
    Possible(e) && (e.Enqueue? && e.message.AddTorrent? ==> Uses(e.message.torrent, all))
  }

  lemma WantedConfined(s: Disk, all: set<FileId>)
    requires Confined(s, all) && TorrentsOk(s)
    ensures FileIds(WantedFiles(s)) <= all
  {
    if WantedFiles(s) != [] {
      FilesDistinct(s.torrents[s.queue[0].request.torrent], KeyOf(s.queue[0].request).metadata);
    }
  }

  lemma ConfinedIsRoomy(s: Disk, e: Event, all: set<FileId>)
    requires Confined(s, all) && TorrentsOk(s)
    ensures Roomy(s, e)
  {
    WantedConfined(s, all);
    SubsetSize(s.cache.states.Keys + FileIds(WantedFiles(s)), all);
  }

  lemma {:induction false} InsertAllKeys(c: Cache, entries: seq<(FileId, FileState)>, all: set<FileId>)
    requires c.states.Keys <= all && EntryKeys(entries) <= all
    ensures InsertAll(c, entries).states.Keys <= all && InsertAll(c, entries).capacity == c.capacity
    decreases |entries|
  {
    if entries != [] {
      EntryKeysSplit(entries);
      InsertAllKeys(c.Insert(entries[0].0, entries[0].1), entries[1..], all);
    }
  }

  lemma {:induction false} GatherKeys(c: Cache, files: seq<(FileEntry, FileWindow)>, opens: seq<OpenIo>,
                                      grabs: seq<Grab>, ready: bool, all: set<FileId>)
    requires c.states.Keys <= all && FileIds(files) <= all && GrabIds(grabs) <= all
    ensures var r := Gather(c, files, opens, grabs, ready);
            && r.cache.states.Keys <= all && r.cache.capacity == c.capacity
            && (r.Gathered? ==> GrabIds(r.grabs) <= all)
    decreases |files|
  {
    if files != [] {
      FileIdsSplit(files);
      var (f, window) := files[0];
      var more := if opens == [] then [] else opens[1..];
      if f.id !in c.states || !c.states[f.id].Busy? {
        var cursor := if f.id in c.states then c.states[f.id].cursor else 0;
        var grabs' := grabs + [Grab(f.id, cursor, window)];
        assert GrabIds(grabs') <= all;
        if f.id !in c.states {
          GatherKeys(c, files[1..], more, grabs', ready, all);
        } else {
          GatherKeys(c.Remove(f.id), files[1..], more, grabs', ready, all);
          GatherKeys(c.Remove(f.id), files[1..], more, grabs', false, all);
        }
      } else {
        GatherKeys(c.Remove(f.id).Insert(f.id, c.states[f.id]), files[1..], more, grabs, false, all);
      }
    }
  }

  lemma AcquireConfined(c: Cache, files: seq<(FileEntry, FileWindow)>, opens: seq<OpenIo>, all: set<FileId>)
    requires c.states.Keys <= all && FileIds(files) <= all
    ensures var r := AcquireFiles(c, files, opens); r.cache.states.Keys <= all && r.cache.capacity == c.capacity
  {
    GatherKeys(c, files, opens, [], true, all);
    var r := Gather(c, files, opens, [], true);
    if r.Gathered? {
      SameKeys(r.grabs, BusyOf(r.grabs));
      SameKeys(r.grabs, QueuedOf(r.grabs));
      InsertAllKeys(r.cache, BusyOf(r.grabs), all);
      InsertAllKeys(r.cache, QueuedOf(r.grabs), all);
    }
  }

  lemma StartConfined(s: Disk, r: Request, opens: seq<OpenIo>, all: set<FileId>)
    requires Confined(s, all) && (r.torrent in s.torrents ==> WellLaid(s.torrents[r.torrent]))
    ensures Confined(s.Start(r, opens).0, all)
  {
    hide AcquireFiles, Fragments, ReadParts, TorrentFile.FilesForBlock;
    if r.torrent in s.torrents && s.torrents[r.torrent].FilesForBlock(KeyOf(r).metadata).Some? {
      var t := s.torrents[r.torrent];
      var files := t.FilesForBlock(KeyOf(r).metadata).value;
      FilesDistinct(t, KeyOf(r).metadata);
      AcquireConfined(s.cache, files, opens, all);
    }
  }

  lemma PollConfined(s: Disk, k: nat, ios: seq<FileIo>, all: set<FileId>)
    requires Inv(s) && Confined(s, all) && k < |s.active|
    ensures Confined(s.PollJob(k, ios).0, all)
  {
    var job := s.active[k];
    var polled := PollParts(job.write, job.parts, s.files, ios);
    if polled.JobPoll? {
      PollKeepsFiles(job.write, job.parts, s.files, ios);
      var entries := ReadyOf(polled.parts);
      forall id | id in EntryKeys(entries)
        ensures id in s.cache.states
      {
        var i :| 0 <= i < |entries| && entries[i].0 == id;
        SumMember(s.active, HeldBy, k);
        assert job.parts[i] in job.parts;
        PartInSum(job.parts, id);
        assert Held(s)[id] >= 1;
      }
      InsertAllKeys(s.cache, entries, all);
    }
  }

  lemma StepConfined(s: Disk, e: Event, all: set<FileId>)
    requires Inv(s) && Confined(s, all) && ConfinedEvent(e, all)
    ensures Confined(Step(s, e).0, all)
  {
    match e
    case Enqueue(m) =>
    case PollJob(k, ios) =>
      if k < |s.active| {
        PollConfined(s, k, ios, all);
      }
    case Pop(opens) =>
      if s.queue != [] {
        hide Disk.Start;
        assert s.queue[0] in s.queue;
        var rest := s.(queue := s.queue[1..]);
        assert Confined(rest, all);
        if s.queue[0].Submit? {
          StartConfined(rest, s.queue[0].request, opens, all);
        }
      }
  }

  /** While the files of all torrents together fit into the cache, handles are exclusive in every state that
      can be reached without a panic. */
  lemma {:induction false} ExclusivityWithRoom(s: Disk, es: seq<Event>, all: set<FileId>)
    requires Inv(s) && Confined(s, all) && forall e :: e in es ==> ConfinedEvent(e, all)
    requires NoCrash(Run(s, es).1)
    ensures Inv(Run(s, es).0) && Confined(Run(s, es).0, all)
    decreases |es|
  {
    hide Step, Inv, Confined, Roomy, Possible, TorrentsOk, ConfinedEvent;
    if es != [] {
      var (s', out) := Step(s, es[0]);
      assert Run(s, es).1[0] == out;
      assert forall i :: 0 <= i < |es[1..]| ==> Run(s', es[1..]).1[i] == Run(s, es).1[i + 1];
      StepFits(s, es[0], all);
      ExclusivityWithRoom(s', es[1..], all);
    }
  }

  lemma StepFits(s: Disk, e: Event, all: set<FileId>)
    requires Inv(s) && Confined(s, all) && ConfinedEvent(e, all) && !Step(s, e).1.Crash?
    ensures Inv(Step(s, e).0) && Confined(Step(s, e).0, all) && Roomy(s, e)
  {
    ConfinedIsRoomy(s, e, all);
    StepConfined(s, e, all);
    hide Step, Confined, Roomy;
    StepKeeps(s, e);
  }

  // ---------------------------------------------------------------- what happens without room

  /** A full cache whose least recently used entry is in use, or which cannot hold anything. */
  predicate EvictsBusy(c: Cache) {
    |c.order| >= c.capacity && (c.order == [] || c.IsBusy(c.order[0]))
  }

  lemma {:induction false} WithoutAbsent(order: seq<FileId>, id: FileId)
    requires id !in order
    ensures Without(order, id) == order
  {
    if order != [] {
      WithoutAbsent(order[1..], id);
    }
  }

  lemma EvictKeeps(c: Cache, id: FileId, state: FileState)
    requires CacheOk(c) && id !in c.states && 0 < |c.order| == c.capacity
    ensures var c' := c.Insert(id, state);
            && CacheOk(c')
            && c'.states == c.states[id := state] - {c.order[0]}
  {
    assert forall x :: x in c.order <==> x in ToSet(c.order);
    WithoutAbsent(c.order, id);
    var order := c.order[1..] + [id];
    assert (c.order + [id])[1..] == order;
    assert ToSet(c.order) == {c.order[0]} + ToSet(c.order[1..]) by { assert c.order == [c.order[0]] + c.order[1..]; }
    PushFacts(c.order[1..], id);
    assert c.order[0] !in ToSet(c.order[1..]);
  }

  lemma InsertWithRoom(held: multiset<FileId>, c: Cache, id: FileId, w: FileWindow)
    requires CacheOk(c) && BusyIsHeld(held, c) && id !in c.states && |c.order| < c.capacity
    ensures var c' := c.Insert(id, Busy(w)); CacheOk(c') && BusyIsHeld(held + multiset{id}, c')
  {
    NoDuplicatesCardinality(c.order);
    InsertFits(c, id, Busy(w), c.states.Keys + {id});
    hide CacheOk, Cache.Insert;
    MarkOne(held, c, id, c.states[id := Busy(w)], w, id);
    SameMarks(held + multiset{id}, c.(states := c.states[id := Busy(w)]), c.Insert(id, Busy(w)));
  }

  /** Marking one file busy, perhaps dropping another that is not. */
  lemma MarkOne(held: multiset<FileId>, c: Cache, id: FileId, states: map<FileId, FileState>, w: FileWindow,
                dropped: FileId)
    requires BusyIsHeld(held, c) && id !in c.states
    requires || states == c.states[id := Busy(w)]
             || (states == c.states[id := Busy(w)] - {dropped} && dropped != id && !c.IsBusy(dropped))
    ensures BusyIsHeld(held + multiset{id}, c.(states := states))
  {
    forall x
      ensures (held + multiset{id})[x] == if c.(states := states).IsBusy(x) then 1 else 0
    {
      assert held[x] == if c.IsBusy(x) then 1 else 0;
    }
  }

  lemma SameMarks(held: multiset<FileId>, c: Cache, d: Cache)
    requires c.states == d.states
    ensures BusyIsHeld(held, c) <==> BusyIsHeld(held, d)
  {
    assert forall x :: c.IsBusy(x) == d.IsBusy(x);
  }

  /** A file that is held but not marked. */
  lemma Unmarked(held: multiset<FileId>, c: Cache, id: FileId)
    requires held[id] >= 1 && !c.IsBusy(id)
    ensures !BusyIsHeld(held, c)
  {
  }

  lemma InsertWhenFull(held: multiset<FileId>, c: Cache, id: FileId, w: FileWindow)
    requires CacheOk(c) && BusyIsHeld(held, c) && id !in c.states && 0 < |c.order| == c.capacity
    ensures var c' := c.Insert(id, Busy(w));
            CacheOk(c') && BusyIsHeld(held + multiset{id}, c') <==> !c.IsBusy(c.order[0])
  {
    var first := c.order[0];
    EvictKeeps(c, id, Busy(w));
    assert first in ToSet(c.order);
    var c' := c.Insert(id, Busy(w));
    hide CacheOk, Cache.Insert;
    if c.IsBusy(first) {
      assert held[first] == 1;
      hide BusyIsHeld;
      Unmarked(held + multiset{id}, c', first);
    } else {
      MarkOne(held, c, id, c'.states, w, first);
      SameMarks(held + multiset{id}, c.(states := c'.states), c');
    }
  }

  lemma InsertExact(held: multiset<FileId>, c: Cache, id: FileId, w: FileWindow)
    requires CacheOk(c) && BusyIsHeld(held, c) && id !in c.states
    ensures var c' := c.Insert(id, Busy(w));
            CacheOk(c') && BusyIsHeld(held + multiset{id}, c') <==> !EvictsBusy(c)
  {
    if |c.order| < c.capacity {
      InsertWithRoom(held, c, id, w);
    } else if c.order == [] {
      assert Without(c.order, id) == [] && ([] + [id])[0] == id;
      assert !c.Insert(id, Busy(w)).IsBusy(id);
      Unmarked(held + multiset{id}, c.Insert(id, Busy(w)), id);
    } else {
      InsertWhenFull(held, c, id, w);
    }
  }

  /** Opening one more file keeps handle exclusivity if and only if it does not push a file in use out of
      the cache. */
  lemma EvictionExact(s: Disk, r: Request, f: FileEntry, w: FileWindow)
    requires Exclusive(s) && r.torrent in s.torrents && f.id !in s.cache.states
    requires r.WriteRequest? ==> s.IsGoodPiece(r.torrent, r.block)
    requires s.torrents[r.torrent].FilesForBlock(KeyOf(r).metadata) == Some([(f, w)])
    ensures Exclusive(s.Start(r, [Opened]).0) <==> !EvictsBusy(s.cache)
  {
    var g := Grab(f.id, 0, w);
    AcquireOne(s.cache, f, w);
    hide AcquireFiles, TorrentFile.FilesForBlock;
    var parts := if r.ReadRequest? then ReadParts([g]) else [WritePart(g, r.block.data)];
    ReadPartsOf([g]);
    assert parts == [parts[0]] && parts[0].file == f.id;
    var job := Job(r.WriteRequest?, r.torrent, KeyOf(r).metadata, parts);
    var s' := s.Start(r, [Opened]).0;
    assert s'.active == s.active + [job] && s'.cache == s.cache.Insert(f.id, Busy(w));
    SumAppend(s.active, [job], HeldBy);
    SumOne(job, HeldBy);
    SumOne(parts[0], PartFile);
    hide Sum, CacheOk;
    InsertExact(Held(s), s.cache, f.id, w);
  }

  lemma AcquireOne(c: Cache, f: FileEntry, w: FileWindow)
    requires f.id !in c.states
    ensures AcquireFiles(c, [(f, w)], [Opened]) == FilesReady(c.Insert(f.id, Busy(w)), [Grab(f.id, 0, w)])
  {
    var g := Grab(f.id, 0, w);
    var files := [(f, w)];
    assert files[1..] == [] && [] + [g] == [g];
    assert Gather(c, files, [Opened], [], true) == Gather(c, files[1..], [Opened][1..], [] + [g], true)
                                                == Gathered(c, [g], true);
    assert BusyOf([g]) == [(f.id, Busy(w))];
    assert InsertAll(c, [(f.id, Busy(w))]) == InsertAll(c.Insert(f.id, Busy(w)), [(f.id, Busy(w))][1..]);
  }
}
