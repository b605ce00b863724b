/** The disk manager: file-handle cache, job queue and active jobs (src/disk/manager.rs). */
module DiskManagers {
  import opened Collections
  import opened Messages
  import opened Blocks
  import opened DiskFiles
  import opened DiskJobs

  // ---------------------------------------------------------------- the handle cache

  datatype FileState =
    | Queued(cursor: nat, window: FileWindow)
    | Ready(cursor: nat)
    | Busy(window: FileWindow)

  function Without(order: seq<FileId>, id: FileId): seq<FileId> {
    if order == [] then []
    else if order[0] == id then order[1..]
    else [order[0]] + Without(order[1..], id)
  }

  /** An LRU cache: `order` lists the keys, least recently used first. */
  datatype Cache = Cache(capacity: nat, order: seq<FileId>, states: map<FileId, FileState>) {
    function Remove(id: FileId): Cache {
      this.(order := Without(order, id), states := states - {id})
    }

    /** Inserting makes the key the most recent one and may drop the least recent one. */
    function Insert(id: FileId, state: FileState): Cache {
      var order' := Without(order, id) + [id];
      var states' := states[id := state];
      if |order'| > capacity then Cache(capacity, order'[1..], states' - {order'[0]})
      else Cache(capacity, order', states')
    }

    predicate IsBusy(id: FileId) {
      id in states && states[id].Busy?
    }
  }

  // ---------------------------------------------------------------- acquiring files

  datatype OpenIo = OpenLater | OpenFailed | Opened

  /** A handle taken for a block: file, cursor, window. */
  datatype Grab = Grab(file: FileId, cursor: nat, window: FileWindow)

  datatype Gathered = Gathered(cache: Cache, grabs: seq<Grab>, allReady: bool) | OpenError(cache: Cache)

  /** The loop of `poll_files` over the files of a block. */
  function Gather(c: Cache, files: seq<(FileEntry, FileWindow)>, opens: seq<OpenIo>, grabs: seq<Grab>, allReady: bool)
    : Gathered
    decreases |files|
  {
    if files == [] then Gathered(c, grabs, allReady)
    else
      var (f, window) := files[0];
      var more := if opens == [] then [] else opens[1..];
      if f.id in c.states then
        match c.states[f.id]
        case Ready(cursor) => Gather(c.Remove(f.id), files[1..], more, grabs + [Grab(f.id, cursor, window)], allReady)
        case Queued(cursor, queued) =>
          Gather(c.Remove(f.id), files[1..], more, grabs + [Grab(f.id, cursor, window)], allReady && window == queued)
        case Busy(w) => Gather(c.Remove(f.id).Insert(f.id, Busy(w)), files[1..], more, grabs, false)
      else
        match (if opens == [] then OpenLater else opens[0])
        case Opened => Gather(c, files[1..], more, grabs + [Grab(f.id, 0, window)], allReady)
        case OpenFailed => OpenError(c)
        case OpenLater => Gathered(c, grabs, false)
  }

  function BusyOf(grabs: seq<Grab>): (r: seq<(FileId, FileState)>)
    ensures |r| == |grabs| && forall i :: 0 <= i < |r| ==> r[i] == (grabs[i].file, Busy(grabs[i].window))
  {
    seq(|grabs|, i requires 0 <= i < |grabs| => (grabs[i].file, Busy(grabs[i].window)))
  }

  function QueuedOf(grabs: seq<Grab>): (r: seq<(FileId, FileState)>)
    ensures |r| == |grabs|
    ensures forall i :: 0 <= i < |r| ==> r[i] == (grabs[i].file, Queued(grabs[i].cursor, grabs[i].window))
  {
    seq(|grabs|, i requires 0 <= i < |grabs| => (grabs[i].file, Queued(grabs[i].cursor, grabs[i].window)))
  }

  /** The states in which a finished job hands its files back. */
  function ReadyOf(parts: seq<Part>): (r: seq<(FileId, FileState)>)
    ensures |r| == |parts| && forall i :: 0 <= i < |r| ==> r[i] == (parts[i].file, Ready(parts[i].cursor))
  {
    seq(|parts|, i requires 0 <= i < |parts| => (parts[i].file, Ready(parts[i].cursor)))
  }

  function InsertAll(c: Cache, entries: seq<(FileId, FileState)>): Cache
    decreases |entries|
  {
    if entries == [] then c else InsertAll(c.Insert(entries[0].0, entries[0].1), entries[1..])
  }

  datatype FilesPoll =
    | FilesPending(cache: Cache)
    | FilesReady(cache: Cache, grabs: seq<Grab>)
    | FilesFailed(cache: Cache)

  /** `poll_files` for the files of a block. */
  function AcquireFiles(c: Cache, files: seq<(FileEntry, FileWindow)>, opens: seq<OpenIo>): FilesPoll {
    match Gather(c, files, opens, [], true)
    case OpenError(c') => FilesFailed(c')
    case Gathered(c', grabs, allReady) =>
      if allReady then FilesReady(InsertAll(c', BusyOf(grabs)), grabs) else FilesPending(InsertAll(c', QueuedOf(grabs)))
  }

  // ---------------------------------------------------------------- requests

  datatype Request =
    | ReadRequest(torrent: TorrentId, metadata: BlockMetadata)
    | WriteRequest(torrent: TorrentId, block: Block)

  datatype Message = AddTorrent(torrent: TorrentFile) | SyncTorrent(id: TorrentId) | Submit(request: Request)

  /** What identifies a request in the account: its direction, torrent and block. */
  datatype Key = Key(write: bool, torrent: TorrentId, metadata: BlockMetadata)

  function KeyOf(r: Request): Key {
    match r
    case ReadRequest(t, m) => Key(false, t, m)
    case WriteRequest(t, b) => Key(true, t, b.metadata)
  }

  /** The result of a step: nothing for the caller, a message, `Poll::Pending`, or a panic. */
  datatype Result = Quiet | Answer(key: Option<Key>, out: Out) | Stalled | Crash

  /** The fields of a manager, and the files behind its handles, as a value. `sha` is the piece hash. */
  datatype Disk = Disk(
    active: seq<Job>,
    cache: Cache,
    torrents: map<TorrentId, TorrentFile>,
    queue: seq<Message>,
    files: Files,
    sha: Bytes -> Digest)
  {
    /** `is_good_piece`. */
    predicate IsGoodPiece(id: TorrentId, block: Block) {
      && id in torrents
      && block.metadata.pieceIndex < |torrents[id].pieces|
      && sha(block.data) == torrents[id].pieces[block.metadata.pieceIndex]
    }

    function Enqueue(m: Message): Disk {
      this.(queue := queue + [m])
    }

    /** Take the first message off the queue. `opens` are the answers to opening files. */
    function Pop(opens: seq<OpenIo>): (Disk, Result)
      requires queue != []
    {
      var s := this.(queue := queue[1..]);
      match queue[0]
      case AddTorrent(t) =>
        if t.id in torrents then (s, Answer(None, TorrentError(t.id)))
        else (s.(torrents := torrents[t.id := t]), Answer(None, TorrentAdded(t.id)))
      case SyncTorrent(_) => (s, Quiet)
      case Submit(r) => s.Start(r, opens)
    }

    function ErrorFor(r: Request): Result {
      Answer(Some(KeyOf(r)), if r.WriteRequest? then WriteBlockError(r.torrent) else ReadBlockError(r.torrent))
    }

    /** `poll_create_block_write` and `poll_create_block_read` with what the loop does with their result. */
    function Start(r: Request, opens: seq<OpenIo>): (Disk, Result) {
      if r.WriteRequest? && !IsGoodPiece(r.torrent, r.block) then (this, ErrorFor(r))
      else if r.torrent !in torrents then (this, ErrorFor(r))
      else
        var files := torrents[r.torrent].FilesForBlock(KeyOf(r).metadata);
        if files.None? then (this, ErrorFor(r))
        else if files.value == [] then (this, Crash)
        else
          match AcquireFiles(cache, files.value, opens)
          case FilesFailed(c) => (this.(cache := c), ErrorFor(r))
          case FilesPending(c) => (this.(cache := c, queue := queue + [Submit(r)]), Stalled)
          case FilesReady(c, grabs) =>
            var parts := if r.ReadRequest? then Some(ReadParts(grabs))
                         else if |grabs| == 1 then Some([WritePart(grabs[0], r.block.data)])
                         else Fragments(grabs, r.block.data, 0);
            if parts.None? then (this.(cache := c), Crash)
            else
              var job := Job(r.WriteRequest?, r.torrent, KeyOf(r).metadata, parts.value);
              (this.(cache := c, active := active + [job]), Quiet)
    }

    /** Poll the active job at position `k` once: finish it or put it back. */
    function PollJob(k: nat, ios: seq<FileIo>): (Disk, Result)
      requires k < |active|
    {
      var job := active[k];
      var rest := SwapRemove(active, k);
      match PollParts(job.write, job.parts, files, ios)
      case JobPanicked => (this.(active := rest), Crash)
      case JobPoll(parts, files', ready) =>
        var job' := job.(parts := parts);
        if ready then
          (this.(active := rest, files := files', cache := InsertAll(cache, ReadyOf(parts))),
           Answer(Some(Key(job.write, job.torrent, job.metadata)), Finalize(job')))
        else (this.(active := rest + [job'], files := files'), Quiet)
    }
  }

  function WritePart(g: Grab, data: Bytes): Part {
    Part(g.file, g.cursor, g.window, Seek, data, 0)
  }

  function ReadParts(grabs: seq<Grab>): seq<Part> {
    if grabs == [] then []
    else [Part(grabs[0].file, grabs[0].cursor, grabs[0].window, Seek, [], 0)] + ReadParts(grabs[1..])
  }

  /** The fragments of an overlapping write; slicing outside the block panics. */
  function Fragments(grabs: seq<Grab>, data: Bytes, offset: nat): Option<seq<Part>> {
    if grabs == [] then Some([])
    else
      var g := grabs[0];
      if !(offset <= g.window.length <= |data|) then None
      else
        var rest := Fragments(grabs[1..], data, offset + g.window.length);
        if rest.None? then None else Some([WritePart(g, data[offset..g.window.length])] + rest.value)
  }

  /** The first loop of `poll`: positions `n - 1` down to 0 until a job finishes or a poll panics. */
  function SweepJobs(s: Disk, n: nat, ios: seq<seq<FileIo>>): (Disk, Result)
    requires n <= |s.active|
    decreases n
  {
    if n == 0 then (s, Quiet)
    else
      var (s', r) := s.PollJob(n - 1, if n - 1 < |ios| then ios[n - 1] else []);
      if r.Quiet? then SweepJobs(s', n - 1, ios) else (s', r)
  }

  // ---------------------------------------------------------------- the manager

  class DiskManager {
    const sha: Bytes -> Digest
    var activeBlocks: seq<Job>
    var fileCache: Cache
    var torrents: map<TorrentId, TorrentFile>
    var queuedEvents: seq<Message>
    var fileSystem: Files

    ghost function Model(): Disk
      reads this
    {
      Disk(activeBlocks, fileCache, torrents, queuedEvents, fileSystem, sha)
    }

    constructor (capacity: nat, files: Files, sha: Bytes -> Digest)
      ensures Model() == Disk([], Cache(capacity, [], map[]), map[], [], files, sha)
    {
      this.sha := sha;
      activeBlocks, fileCache, torrents, queuedEvents, fileSystem := [], Cache(capacity, [], map[]), map[], [], files;
    }

    method Enqueue(m: Message)
      modifies this
      ensures Model() == old(Model()).Enqueue(m)
    {
      queuedEvents := queuedEvents + [m];
    }

    /** `poll_files`: take every handle the block needs, or leave them all in the cache. */
    method PollFiles(files: seq<(FileEntry, FileWindow)>, opens: seq<OpenIo>) returns (r: FilesPoll)
      modifies this`fileCache
      ensures r == AcquireFiles(old(fileCache), files, opens)
      ensures fileCache == r.cache
    {
      var queued: seq<Grab> := [];
      var allReady := true;
      var k := 0;
      ghost var all := Gather(fileCache, files, opens, [], true);
      assert files[0..] == files && opens[0..] == opens;
      while k < |files|
        invariant 0 <= k <= |files|
        invariant all == Gather(fileCache, files[k..], Drop(opens, k), queued, allReady)
        decreases |files| - k
      {
        var (f, window) := files[k];
        assert files[k..][0] == files[k] && files[k..][1..] == files[k + 1..];
        DropNext(opens, k);
        if f.id in fileCache.states {
          var state := fileCache.states[f.id];
          fileCache := fileCache.Remove(f.id);
          match state {
            case Ready(cursor) => queued := queued + [Grab(f.id, cursor, window)];
            case Queued(cursor, queuedWindow) =>
              allReady := allReady && window == queuedWindow;
              queued := queued + [Grab(f.id, cursor, window)];
            case Busy(w) =>
              allReady := false;
              fileCache := fileCache.Insert(f.id, Busy(w));
          }
        } else {
          var io := if k < |opens| then opens[k] else OpenLater;
          if io.OpenFailed? {
            return FilesFailed(fileCache);
          }
          if io.OpenLater? {
            allReady := false;
            break;
          }
          queued := queued + [Grab(f.id, 0, window)];
        }
        k := k + 1;
      }
      if allReady {
        fileCache := InsertAll(fileCache, BusyOf(queued));
        return FilesReady(fileCache, queued);
      }
      fileCache := InsertAll(fileCache, QueuedOf(queued));
      return FilesPending(fileCache);
    }

    /** `poll_create_block_write` and `poll_create_block_read`. */
    method Start(request: Request, opens: seq<OpenIo>) returns (r: Result)
      modifies this
      ensures (Model(), r) == old(Model()).Start(request, opens)
    {
      hide AcquireFiles, Fragments, ReadParts;
      var failed := Answer(Some(KeyOf(request)),
                           if request.WriteRequest? then WriteBlockError(request.torrent)
                           else ReadBlockError(request.torrent));
      if request.WriteRequest? {
        var good := IsGoodPiece(request.torrent, request.block);
        if !good {
          return failed;
        }
      }
      if request.torrent !in torrents {
        return failed;
      }
      var files := FilesForBlock(torrents[request.torrent], KeyOf(request).metadata);
      if files.None? {
        return failed;
      }
      if files.value == [] {
        return Crash;
      }
      var acquired := PollFiles(files.value, opens);
      if acquired.FilesFailed? {
        return failed;
      }
      if acquired.FilesPending? {
        queuedEvents := queuedEvents + [Submit(request)];
        return Stalled;
      }
      var grabs := acquired.grabs;
      var parts := if request.ReadRequest? then Some(ReadParts(grabs))
                   else if |grabs| == 1 then Some([WritePart(grabs[0], request.block.data)])
                   else Fragments(grabs, request.block.data, 0);
      if parts.None? {
        return Crash;
      }
      var job := Job(request.WriteRequest?, request.torrent, KeyOf(request).metadata, parts.value);
      activeBlocks := activeBlocks + [job];
      return Quiet;
    }

    method IsGoodPiece(id: TorrentId, block: Block) returns (good: bool)
      ensures good == Model().IsGoodPiece(id, block)
    {
      if id !in torrents || block.metadata.pieceIndex >= |torrents[id].pieces| {
        return false;
      }
      return sha(block.data) == torrents[id].pieces[block.metadata.pieceIndex];
    }

    /** One message of the second loop of `poll`. */
    method PopEvent(opens: seq<OpenIo>) returns (r: Result)
      requires queuedEvents != []
      modifies this
      ensures (Model(), r) == old(Model()).Pop(opens)
    {
      var m := queuedEvents[0];
      queuedEvents := queuedEvents[1..];
      match m {
        case AddTorrent(t) =>
          if t.id in torrents {
            return Answer(None, TorrentError(t.id));
          }
          torrents := torrents[t.id := t];
          return Answer(None, TorrentAdded(t.id));
        case SyncTorrent(_) => return Quiet;
        case Submit(request) => r := Start(request, opens);
      }
    }

    method PollOne(n: nat, ios: seq<FileIo>) returns (r: Result)
      requires n < |activeBlocks|
      modifies this
      ensures (Model(), r) == old(Model()).PollJob(n, ios)
    {
      hide PollParts, InsertAll, Finalize;
      var job := activeBlocks[n];
      activeBlocks := SwapRemove(activeBlocks, n);
      var polled := PollParts(job.write, job.parts, fileSystem, ios);
      if polled.JobPanicked? {
        return Crash;
      }
      fileSystem := polled.files;
      var job' := job.(parts := polled.parts);
      if polled.ready {
        fileCache := InsertAll(fileCache, ReadyOf(polled.parts));
        return Answer(Some(Key(job.write, job.torrent, job.metadata)), Finalize(job'));
      }
      activeBlocks := activeBlocks + [job'];
      return Quiet;
    }

    /** The first loop of `poll`: each active job is taken out with `swap_remove` and polled once. */
    method PollActive(ios: seq<seq<FileIo>>) returns (r: Result)
      modifies this
      ensures (Model(), r) == SweepJobs(old(Model()), |old(activeBlocks)|, ios)
    {
      var n := |activeBlocks|;
      while n > 0
        invariant 0 <= n <= |activeBlocks|
        invariant SweepJobs(Model(), n, ios) == SweepJobs(old(Model()), |old(activeBlocks)|, ios)
      {
        n := n - 1;
        ghost var before := Model();
        r := PollOne(n, if n < |ios| then ios[n] else []);
        PollJobSize(before, n, if n < |ios| then ios[n] else []);
        if !r.Quiet? {
          return;
        }
      }
      return Quiet;
    }
  }

  /** A job that is put back leaves the positions before it in range. */
  lemma PollJobSize(s: Disk, k: nat, ios: seq<FileIo>)
    requires k < |s.active|
    ensures k <= |s.PollJob(k, ios).0.active|
  {
  }

  function Drop(opens: seq<OpenIo>, k: nat): seq<OpenIo> {
    if k <= |opens| then opens[k..] else []
  }

  lemma DropNext(opens: seq<OpenIo>, k: nat)
    ensures Drop(opens, k) == [] <==> |opens| <= k
    ensures k < |opens| ==> Drop(opens, k)[0] == opens[k] && Drop(opens, k)[1..] == Drop(opens, k + 1)
    ensures |opens| <= k ==> Drop(opens, k + 1) == []
  {
  }
}
