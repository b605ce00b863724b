/** Runs of the disk manager: every request is answered once, and no two jobs share a file handle
    (src/disk/manager.rs). */
module DiskRuns {
  import opened Collections
  import opened Messages
  import opened DiskFiles
  import opened DiskJobs
  import opened DiskManagers

  /** One call, one poll of one active job, or one message taken off the queue. */
  datatype Event =
    | Enqueue(message: Message)
    | PollJob(k: nat, ios: seq<FileIo>)
    | Pop(opens: seq<OpenIo>)

  function Step(s: Disk, e: Event): (Disk, Result) {
    match e
    case Enqueue(m) => (s.Enqueue(m), Quiet)
    case PollJob(k, ios) => if k < |s.active| then s.PollJob(k, ios) else (s, Quiet)
    case Pop(opens) => if s.queue != [] then s.Pop(opens) else (s, Stalled)
  }

  function Run(s: Disk, es: seq<Event>): (r: (Disk, seq<Result>))
    ensures |r.1| == |es|
    decreases |es|
  {
    if es == [] then (s, [])
    else
      var (s', out) := Step(s, es[0]);
      var (last, outs) := Run(s', es[1..]);
      (last, [out] + outs)
  }

  /** The manager before event `i` of a run. */
  function StateAt(s: Disk, es: seq<Event>, i: nat): Disk
    requires i <= |es|
  {
    Run(s, es[..i]).0
  }

  lemma {:induction false} RunStep(s: Disk, es: seq<Event>, i: nat)
    requires i < |es|
    ensures (StateAt(s, es, i + 1), Run(s, es).1[i]) == Step(StateAt(s, es, i), es[i])
    ensures Run(s, es[..i + 1]).1 == Run(s, es[..i]).1 + [Run(s, es).1[i]]
    decreases |es|
  {
    hide Step;
    if i == 0 {
      assert es[..0] == [] && es[..1] == [es[0]] && [es[0]][1..] == [];
    } else {
      var s' := Step(s, es[0]).0;
      RunStep(s', es[1..], i - 1);
      assert es[1..][..i - 1] == es[..i][1..] && es[1..][..i] == es[..i + 1][1..];
    }
  }

  /** A run, given all its states. */
  lemma {:induction false} RunStates(ds: seq<Disk>, es: seq<Event>)
    requires |ds| == |es| + 1 && forall i :: 0 <= i < |es| ==> Step(ds[i], es[i]).0 == ds[i + 1]
    ensures Run(ds[0], es).0 == ds[|es|]
    ensures forall i :: 0 <= i < |es| ==> Run(ds[0], es).1[i] == Step(ds[i], es[i]).1
    decreases |es|
  {
    hide Step;
    if es != [] {
      var ds1, es1 := ds[1..], es[1..];
      assert forall i :: 0 <= i < |es1| ==> ds1[i] == ds[i + 1] && es1[i] == es[i + 1];
      RunStates(ds1, es1);
      assert ds1[0] == Step(ds[0], es[0]).0;
    }
  }

  predicate NoCrash(outs: seq<Result>) {
    forall i :: 0 <= i < |outs| ==> !outs[i].Crash?
  }

  function IosFor(ios: seq<seq<FileIo>>, k: nat): seq<FileIo> {
    if k < |ios| then ios[k] else []
  }

  /** The first loop of `poll` is such a run: it polls jobs, one after the other. */
  lemma {:induction false} SweepIsARun(s: Disk, n: nat, ios: seq<seq<FileIo>>) returns (es: seq<Event>)
    requires n <= |s.active|
    ensures forall e :: e in es ==> e.PollJob?
    ensures Run(s, es).0 == SweepJobs(s, n, ios).0
    ensures es == [] ==> SweepJobs(s, n, ios).1.Quiet?
    ensures es != [] ==> Run(s, es).1[|es| - 1] == SweepJobs(s, n, ios).1
    decreases n
  {
    es := [];
    if n > 0 {
      hide SweepJobs, Disk.PollJob, Run;
      var (s', r) := s.PollJob(n - 1, IosFor(ios, n - 1));
      PollJobSize(s, n - 1, IosFor(ios, n - 1));
      SweepUnfolds(s, n, ios);
      var rest: seq<Event> := [];
      EmptyRun(s');
      if r.Quiet? {
        rest := SweepIsARun(s', n - 1, ios);
      }
      es := [PollJob(n - 1, IosFor(ios, n - 1))] + rest;
      PollFirst(s, n - 1, IosFor(ios, n - 1), rest);
    }
  }

  /** A run that begins with the poll of a job. */
  lemma PollFirst(s: Disk, k: nat, ios: seq<FileIo>, rest: seq<Event>)
    requires k < |s.active|
    ensures var (s', r) := s.PollJob(k, ios);
            var all := Run(s, [PollJob(k, ios)] + rest);
            && all.0 == Run(s', rest).0
            && all.1[|rest|] == if rest == [] then r else Run(s', rest).1[|rest| - 1]
  {
    hide Disk.PollJob, Run;
    RunFirst(s, PollJob(k, ios), rest);
  }

  lemma RunFirst(s: Disk, e: Event, rest: seq<Event>)
    ensures var (s', r) := Step(s, e); Run(s, [e] + rest) == (Run(s', rest).0, [r] + Run(s', rest).1)
  {
    hide Step;
    assert ([e] + rest)[1..] == rest;
  }

  lemma EmptyRun(s: Disk)
    ensures Run(s, []) == (s, [])
  {
  }

  lemma SweepUnfolds(s: Disk, n: nat, ios: seq<seq<FileIo>>)
    requires 0 < n <= |s.active|
    ensures var (s', r) := s.PollJob(n - 1, IosFor(ios, n - 1));
            SweepJobs(s, n, ios) == if r.Quiet? && n - 1 <= |s'.active| then SweepJobs(s', n - 1, ios) else (s', r)
  {
    PollJobSize(s, n - 1, IosFor(ios, n - 1));
  }

  // ---------------------------------------------------------------- one answer per request

  function JobKey(j: Job): multiset<Key> {
    multiset{Key(j.write, j.torrent, j.metadata)}
  }

  function QueuedKey(m: Message): multiset<Key> {
    if m.Submit? then multiset{KeyOf(m.request)} else multiset{}
  }

  /** The requests that are waiting or being worked on. */
  ghost function Open(s: Disk): multiset<Key> {
    Sum(s.queue, QueuedKey) + Sum(s.active, JobKey)
  }

  function Submitted(e: Event): multiset<Key> {
    if e.Enqueue? then QueuedKey(e.message) else multiset{}
  }

  function Answered(r: Result): multiset<Key> {
    if r.Answer? && r.key.Some? then multiset{r.key.value} else multiset{}
  }

  lemma PollJobAccount(s: Disk, k: nat, ios: seq<FileIo>)
    requires k < |s.active| && !s.PollJob(k, ios).1.Crash?
    ensures var (s', r) := s.PollJob(k, ios); Open(s) == Open(s') + Answered(r)
  {
    hide Sum, PollParts, InsertAll, Finalize;
    var job := s.active[k];
    SumSwapRemove(s.active, k, JobKey);
    var polled := PollParts(job.write, job.parts, s.files, ios);
    if !polled.ready {
      var job' := job.(parts := polled.parts);
      SumAppend(SwapRemove(s.active, k), [job'], JobKey);
      SumOne(job', JobKey);
    }
  }

  lemma StartAccount(s: Disk, r: Request, opens: seq<OpenIo>)
    requires !s.Start(r, opens).1.Crash?
    ensures var (s', out) := s.Start(r, opens); Open(s) + multiset{KeyOf(r)} == Open(s') + Answered(out)
  {
    hide Sum, Disk.Start;
    StartOutcome(s, r, opens);
    var (s', out) := s.Start(r, opens);
    if out.Stalled? {
      SumAppend(s.queue, [Submit(r)], QueuedKey);
      SumOne(Submit(r), QueuedKey);
    } else if out.Quiet? {
      var job := s'.active[|s.active|];
      SumAppend(s.active, [job], JobKey);
      SumOne(job, JobKey);
    }
  }

  /** A request that is started is put back, becomes active, or is answered. */
  lemma StartOutcome(s: Disk, r: Request, opens: seq<OpenIo>)
    requires !s.Start(r, opens).1.Crash?
    ensures var (s', out) := s.Start(r, opens);
            && (out.Stalled? ==> s'.queue == s.queue + [Submit(r)] && s'.active == s.active)
            && (out.Quiet? ==> |s'.active| == |s.active| + 1 && s'.queue == s.queue
                               && s'.active == s.active + [s'.active[|s.active|]]
                               && JobKey(s'.active[|s.active|]) == multiset{KeyOf(r)})
            && (!out.Stalled? && !out.Quiet? ==> s'.queue == s.queue && s'.active == s.active
                                                 && Answered(out) == multiset{KeyOf(r)})
  {
    hide AcquireFiles, Fragments, ReadParts, TorrentFile.FilesForBlock, Disk.IsGoodPiece;
  }

  lemma StepAccount(s: Disk, e: Event)
    requires !Step(s, e).1.Crash?
    ensures var (s', r) := Step(s, e); Open(s) + Submitted(e) == Open(s') + Answered(r)
  {
    match e
    case Enqueue(m) =>
      SumAppend(s.queue, [m], QueuedKey);
      SumOne(m, QueuedKey);
    case PollJob(k, ios) =>
      if k < |s.active| {
        PollJobAccount(s, k, ios);
      }
    case Pop(opens) =>
      if s.queue != [] {
        PopAccount(s, opens);
      }
  }

  lemma PopAccount(s: Disk, opens: seq<OpenIo>)
    requires s.queue != [] && !s.Pop(opens).1.Crash?
    ensures var (s', r) := s.Pop(opens); Open(s) == Open(s') + Answered(r)
  {
    hide Disk.Start, Sum, Open, QueuedKey, Answered;
    var rest := s.(queue := s.queue[1..]);
    OpenSplit(s);
    KeyOfMessage(s.queue[0]);
    if s.queue[0].Submit? {
      StartAccount(rest, s.queue[0].request, opens);
    } else {
      OpenIgnoresTorrents(rest, s.Pop(opens).0);
    }
  }

  lemma KeyOfMessage(m: Message)
    ensures QueuedKey(m) == if m.Submit? then multiset{KeyOf(m.request)} else multiset{}
    ensures forall out :: Answered(Answer(None, out)) == multiset{}
    ensures Answered(Quiet) == multiset{}
  {
  }

  lemma OpenSplit(s: Disk)
    requires s.queue != []
    ensures Open(s) == Open(s.(queue := s.queue[1..])) + QueuedKey(s.queue[0])
  {
  }

  lemma OpenIgnoresTorrents(a: Disk, b: Disk)
    requires a.queue == b.queue && a.active == b.active
    ensures Open(a) == Open(b)
  {
  }

  /** Job conservation: in every run without a panic, every read or write request submitted is, with
      multiplicities, in the queue, in an active job, or answered. */
  lemma {:induction false} OneAnswerPerRequest(s: Disk, es: seq<Event>)
    requires NoCrash(Run(s, es).1)
    ensures var (s', outs) := Run(s, es); Open(s) + Sum(es, Submitted) == Open(s') + Sum(outs, Answered)
    decreases |es|
  {
    hide Step, Open, Submitted, Answered;
    if es != [] {
      var (s', out) := Step(s, es[0]);
      var outs := Run(s, es).1;
      assert outs[0] == out && outs[1..] == Run(s', es[1..]).1;
      assert NoCrash(outs[1..]);
      StepAccount(s, es[0]);
      OneAnswerPerRequest(s', es[1..]);
      Balance(Open(s), Open(s'), Open(Run(s, es).0),
              Submitted(es[0]), Answered(out), Sum(es[1..], Submitted), Sum(outs[1..], Answered));
    }
  }

  // ---------------------------------------------------------------- the cache

  ghost predicate CacheOk(c: Cache) {
    NoDuplicates(c.order) && ToSet(c.order) == c.states.Keys && |c.order| <= c.capacity
  }

  lemma {:induction false} WithoutFacts(order: seq<FileId>, id: FileId)
    requires NoDuplicates(order)
    ensures NoDuplicates(Without(order, id)) && ToSet(Without(order, id)) == ToSet(order) - {id}
    ensures |Without(order, id)| == |order| - if id in order then 1 else 0
  {
    if order != [] {
      assert ToSet(order) == {order[0]} + ToSet(order[1..]);
      if order[0] != id {
        WithoutFacts(order[1..], id);
        var w := Without(order[1..], id);
        assert ToSet([order[0]] + w) == {order[0]} + ToSet(w);
        assert order[0] !in ToSet(w);
      }
    }
  }

  lemma RemoveOk(c: Cache, id: FileId)
    requires CacheOk(c)
    ensures CacheOk(c.Remove(id)) && c.Remove(id).states == c.states - {id} && c.Remove(id).capacity == c.capacity
    ensures c.Remove(id).states.Keys == c.states.Keys - {id}
  {
    WithoutFacts(c.order, id);
  }

  /** There is room for the files in `all`. */
  ghost predicate Room(c: Cache, all: set<FileId>) {
    c.states.Keys <= all && |all| <= c.capacity
  }

  /** An insert that has room drops nothing. */
  lemma InsertFits(c: Cache, id: FileId, state: FileState, all: set<FileId>)
    requires CacheOk(c) && Room(c, all) && id in all
    ensures var r := c.Insert(id, state); CacheOk(r) && r.states == c.states[id := state] && r.capacity == c.capacity
  {
    hide Without, NoDuplicates, ToSet;
    WithoutFacts(c.order, id);
    var order := Without(c.order, id) + [id];
    PushFacts(Without(c.order, id), id);
    assert ToSet(order) == c.states.Keys + {id};
    NoDuplicatesCardinality(order);
    SubsetSize(ToSet(order), all);
  }

  lemma InsertChanges(c: Cache, id: FileId, state: FileState, all: set<FileId>)
    requires CacheOk(c) && Room(c, all) && id in all
    ensures var r := c.Insert(id, state);
            && CacheOk(r) && Room(r, all) && r.capacity == c.capacity && r.states.Keys == c.states.Keys + {id}
            && forall x :: r.IsBusy(x) == if x == id then state.Busy? else c.IsBusy(x)
  {
    InsertFits(c, id, state, all);
    hide Cache.Insert, CacheOk;
  }

  lemma PushFacts(order: seq<FileId>, id: FileId)
    requires NoDuplicates(order) && id !in ToSet(order)
    ensures NoDuplicates(order + [id]) && ToSet(order + [id]) == ToSet(order) + {id}
  {
  }

  ghost function EntryKeys(entries: seq<(FileId, FileState)>): set<FileId> {
    set e | e in entries :: e.0
  }

  lemma EntryKeysSplit(entries: seq<(FileId, FileState)>)
    requires entries != []
    ensures EntryKeys(entries) == {entries[0].0} + EntryKeys(entries[1..])
  {
    assert entries == [entries[0]] + entries[1..];
  }

  /** Inserting entries of one kind, with room for all of them. */
  lemma {:induction false} InsertAllFits(c: Cache, entries: seq<(FileId, FileState)>, busy: bool, all: set<FileId>)
    requires CacheOk(c) && Room(c, all) && EntryKeys(entries) <= all
    requires forall i :: 0 <= i < |entries| ==> entries[i].1.Busy? == busy
    ensures var r := InsertAll(c, entries);
            && CacheOk(r) && Room(r, all) && r.capacity == c.capacity
            && r.states.Keys == c.states.Keys + EntryKeys(entries)
            && forall id :: r.IsBusy(id) == if id in EntryKeys(entries) then busy else c.IsBusy(id)
    decreases |entries|
  {
    if entries != [] {
      hide CacheOk, EntryKeys, Room, Cache.Insert, Cache.IsBusy;
      var (id, state) := entries[0];
      EntryKeysSplit(entries);
      InsertChanges(c, id, state, all);
      InsertAllFits(c.Insert(id, state), entries[1..], busy, all);
    }
  }

  lemma {:induction false} SubsetSize<T>(a: set<T>, b: set<T>)
    requires a <= b
    ensures |a| <= |b|
    decreases a
  {
    if a != {} {
      var x :| x in a;
      SubsetSize(a - {x}, b - {x});
    }
  }

  ghost function FileIds(files: seq<(FileEntry, FileWindow)>): set<FileId> {
    set x | x in files :: x.0.id
  }

  ghost function GrabIds(grabs: seq<Grab>): set<FileId> {
    set g | g in grabs :: g.file
  }

  /** What the loop over the files of a block has done to the cache: the files it took are out of it, each
      once and none of them busy; no other entry has changed its kind. */
  ghost predicate Taken(c: Cache, c': Cache, grabs: seq<Grab>, all: set<FileId>) {
    && CacheOk(c') && c'.capacity == c.capacity
    && (forall id :: c'.IsBusy(id) <==> c.IsBusy(id))
    && (forall i, j :: 0 <= i < j < |grabs| ==> grabs[i].file != grabs[j].file)
    && GrabIds(grabs) !! c'.states.Keys
    && c'.states.Keys + GrabIds(grabs) <= all
  }

  /** The cache after a failure to open a file: the handles taken so far are dropped. */
  ghost predicate LeftOver(c: Cache, c': Cache, all: set<FileId>) {
    exists grabs :: Taken(c, c', grabs, all)
  }

  /** The grabs are the files of the block, in order and with their windows. */
  ghost predicate Complete(grabs: seq<Grab>, files: seq<(FileEntry, FileWindow)>) {
    && |grabs| == |files|
    && forall i :: 0 <= i < |files| ==> grabs[i].file == files[i].0.id && grabs[i].window == files[i].1
  }

  /** Taking one more file that is not busy. */
  lemma TakeOne(c0: Cache, c: Cache, grabs: seq<Grab>, all: set<FileId>, g: Grab)
    requires Taken(c0, c, grabs, all) && g.file in all && g.file !in GrabIds(grabs) && !c.IsBusy(g.file)
    ensures Taken(c0, if g.file in c.states then c.Remove(g.file) else c, grabs + [g], all)
    ensures GrabIds(grabs + [g]) == GrabIds(grabs) + {g.file}
  {
    hide CacheOk;
    RemoveOk(c, g.file);
    assert forall x :: x in grabs + [g] <==> x in grabs || x == g;
    assert GrabIds(grabs + [g]) == GrabIds(grabs) + {g.file};
    forall i | 0 <= i < |grabs|
      ensures grabs[i].file != g.file
    {
      assert grabs[i].file in GrabIds(grabs);
    }
  }

  lemma FileIdsSplit(files: seq<(FileEntry, FileWindow)>)
    requires files != []
    ensures FileIds(files) == {files[0].0.id} + FileIds(files[1..])
    ensures (forall i, j :: 0 <= i < j < |files| ==> files[i].0.id != files[j].0.id) ==>
              files[0].0.id !in FileIds(files[1..])
  {
    assert files == [files[0]] + files[1..];
  }

  lemma {:induction false} GatherTakes(c: Cache, files: seq<(FileEntry, FileWindow)>, opens: seq<OpenIo>,
                                       grabs: seq<Grab>, allReady: bool, c0: Cache, all: set<FileId>)
    requires Taken(c0, c, grabs, all) && FileIds(files) <= all
    requires forall i, j :: 0 <= i < j < |files| ==> files[i].0.id != files[j].0.id
    requires GrabIds(grabs) !! FileIds(files)
    ensures match Gather(c, files, opens, grabs, allReady)
            case OpenError(c') => LeftOver(c0, c', all)
            case Gathered(c', g, ready) => Taken(c0, c', g, all)
    decreases |files|
  {
    hide Taken, FileIds, GrabIds, Cache.Remove, Cache.Insert;
    if files != [] {
      var (f, window) := files[0];
      var more := if opens == [] then [] else opens[1..];
      FileIdsSplit(files);
      if f.id in c.states && c.states[f.id].Busy? {
        BusyTaken(c0, c, grabs, all, f.id);
        GatherTakes(c.Remove(f.id).Insert(f.id, c.states[f.id]), files[1..], more, grabs, false, c0, all);
      } else {
        if f.id !in c.states && opens != [] && opens[0].OpenFailed? {
          assert LeftOver(c0, c, all);
        }
        var cursor := if f.id in c.states then c.states[f.id].cursor else 0;
        var g := Grab(f.id, cursor, window);
        TakeOne(c0, c, grabs, all, g);
        var c' := if f.id in c.states then c.Remove(f.id) else c;
        var ready := allReady && (f.id in c.states && c.states[f.id].Queued? ==> window == c.states[f.id].window);
        GatherTakes(c', files[1..], more, grabs + [g], ready, c0, all);
      }
    }
  }

  lemma BusyTaken(c0: Cache, c: Cache, grabs: seq<Grab>, all: set<FileId>, id: FileId)
    requires Taken(c0, c, grabs, all) && c.IsBusy(id)
    ensures Taken(c0, c.Remove(id).Insert(id, c.states[id]), grabs, all)
  {
    hide GrabIds;
    BusyAgain(c, id);
    hide Cache.Remove, Cache.Insert;
  }

  lemma BusyAgain(c: Cache, id: FileId)
    requires CacheOk(c) && id in c.states
    ensures var r := c.Remove(id).Insert(id, c.states[id]);
            CacheOk(r) && r.states == c.states && r.capacity == c.capacity
  {
    RemoveOk(c, id);
    FitsItself(c);
    hide CacheOk, Cache.Remove, Cache.Insert;
    InsertFits(c.Remove(id), id, c.states[id], c.states.Keys);
    assert (c.states - {id})[id := c.states[id]] == c.states;
  }

  lemma FitsItself(c: Cache)
    requires CacheOk(c)
    ensures Room(c, c.states.Keys)
  {
    NoDuplicatesCardinality(c.order);
  }
}
