/** What a resumable transfer does to a file and what it sees there, from its first poll to its last
    (src/disk/block.rs). */
module Transfers {
  import opened Collections
  import opened Messages
  import opened DiskFiles
  import opened DiskJobs

  // ---------------------------------------------------------------- writing at a position

  lemma WriteAtFacts(content: Bytes, pos: nat, data: Bytes)
    requires data != []
    ensures var r := WriteAt(content, pos, data);
            && |r| == (if |content| < pos + |data| then pos + |data| else |content|)
            && (forall i :: 0 <= i < |data| ==> r[pos + i] == data[i])
            && (forall i :: 0 <= i < |content| && (i < pos || pos + |data| <= i) ==> r[i] == content[i])
  {
  }

  lemma WriteAtNothing(content: Bytes, pos: nat)
    ensures WriteAt(content, pos, []) == content
  {
  }

  /** Bytes outside the written range stay. */
  lemma WriteAtElsewhere(content: Bytes, pos: nat, data: Bytes, from: nat, part: Bytes)
    requires SliceIs(content, from, part)
    requires from + |part| <= pos || pos + |data| <= from
    ensures SliceIs(WriteAt(content, pos, data), from, part)
  {
    if data != [] {
      WriteAtFacts(content, pos, data);
      var r := WriteAt(content, pos, data);
      assert r[from..from + |part|] == content[from..from + |part|];
    }
  }

  /** Writing right behind a range extends it. */
  lemma WriteAtExtends(content: Bytes, from: nat, part: Bytes, data: Bytes)
    requires part != [] ==> SliceIs(content, from, part)
    requires part + data != []
    ensures SliceIs(WriteAt(content, from + |part|, data), from, part + data)
  {
    hide WriteAt, SliceIs;
    var r := WriteAt(content, from + |part|, data);
    if data == [] {
      assert part + data == part;
      WriteAtNothing(content, from + |part|);
    } else {
      WriteAtFacts(content, from + |part|, data);
      if part != [] {
        WriteAtElsewhere(content, from + |part|, data, from, part);
      }
      SliceByIndex(r, from + |part|, data);
      SliceExtends(r, from, part, data);
    }
  }

  // ---------------------------------------------------------------- a write on track

  /** The write has put its first `moved` bytes where they belong; past the seek phase, it is about to go on
      behind them. */
  ghost predicate WriteOnTrack(p: Part, content: Bytes) {
    && p.moved <= p.window.length
    && (p.phase.Process? ==> p.cursor == p.window.offset + p.moved)
    && (p.phase.Done? ==> p.moved == p.window.length)
    && (p.moved > 0 ==> p.window.length <= |p.block| && SliceIs(content, p.window.offset, p.block[..p.moved]))
  }

  /** The transfer moves bytes, or will move them where the cursor stands now. */
  predicate Starts(t: Transfer) {
    t.TransferLater? || (t.Moved? && t.count > 0)
  }

  /** A first transfer after the seek goes astray: an earlier one was short, and the bytes that are left are
      about to be written over the ones that are there. */
  predicate WriteAstray(p: Part, io: FileIo) {
    p.phase.Seek? && io.seek.SeekDone? && p.moved > 0 && Starts(io.transfer)
  }

  lemma TransferOnTrack(p: Part, content: Bytes, t: Transfer)
    requires p.moved <= p.window.length && p.cursor == p.window.offset + p.moved
    requires p.moved > 0 ==> p.window.length <= |p.block| && SliceIs(content, p.window.offset, p.block[..p.moved])
    requires !TransferWrite(p, content, t).Panicked?
    ensures var r := TransferWrite(p, content, t);
            && r.part.moved <= p.window.length && r.part.cursor == p.window.offset + r.part.moved
            && (r.part.moved > 0 ==> SliceIs(r.content, p.window.offset, p.block[..r.part.moved]))
  {
    hide WriteAt, SliceIs;
    if t.Moved? {
      var k := Min(t.count, p.Left());
      var head, data := p.block[..p.moved], p.block[p.moved..p.moved + k];
      assert head + data == p.block[..p.moved + k];
      if p.moved + k > 0 {
        WriteAtExtends(content, p.window.offset, head, data);
      }
    }
  }

  /** A poll whose transfer moves nothing leaves the file alone. */
  lemma NothingMoved(p: Part, content: Bytes, t: Transfer)
    requires !Starts(t) && !TransferWrite(p, content, t).Panicked?
    ensures var r := TransferWrite(p, content, t);
            r.content == content && r.part.moved == p.moved && (r.part.phase == p.phase || r.part.phase.Done?)
  {
    if t.Moved? {
      assert p.block[p.moved..p.moved + 0] == [];
    }
  }

  /** Unless its first transfer goes astray, a write on track stays on track. */
  lemma WriteStaysOnTrack(p: Part, content: Bytes, io: FileIo)
    requires WriteOnTrack(p, content) && !WriteAstray(p, io)
    requires !PollWrite(p, content, io).Panicked?
    ensures var r := PollWrite(p, content, io); WriteOnTrack(r.part, r.content)
  {
    var q := p.(cursor := p.window.offset);
    if p.phase.Seek? && io.seek.SeekDone? && p.moved > 0 {
      NothingMoved(q, content, io.transfer);
    } else if p.phase.Seek? && io.seek.SeekDone? {
      TransferOnTrack(q, content, io.transfer);
    } else if p.phase.Process? {
      TransferOnTrack(p, content, io.transfer);
    }
  }

  /** The cursor of a write never leaves its window, on track or not. */
  predicate WriteBounded(p: Part) {
    p.moved <= p.window.length && (p.phase.Process? ==> p.window.offset <= p.cursor <= p.window.offset + p.moved)
  }

  /** The transfer of a poll, if it gets as far: what is written, and where. */
  predicate Reaches(p: Part, io: FileIo) {
    io.transfer.Moved? && (p.phase.Process? || (p.phase.Seek? && io.seek.SeekDone?))
  }

  function TargetOf(p: Part): nat {
    if p.phase.Seek? then p.window.offset else p.cursor
  }

  function DataOf(p: Part, io: FileIo): Bytes
    requires Reaches(p, io) && p.moved <= p.window.length <= |p.block|
  {
    p.block[p.moved..p.moved + Min(io.transfer.count, p.Left())]
  }

  /** A poll writes its data at its target, or nothing. */
  lemma PollContent(p: Part, content: Bytes, io: FileIo)
    requires !PollWrite(p, content, io).Panicked?
    ensures Reaches(p, io) ==> p.moved <= p.window.length <= |p.block|
    ensures PollWrite(p, content, io).content
         == if Reaches(p, io) then WriteAt(content, TargetOf(p), DataOf(p, io)) else content
  {
    hide WriteAt;
  }

  /** A write changes nothing outside its window. */
  lemma WriteStaysInside(p: Part, content: Bytes, io: FileIo, from: nat, part: Bytes)
    requires WriteBounded(p) && !PollWrite(p, content, io).Panicked?
    requires SliceIs(content, from, part)
    requires from + |part| <= p.window.offset || p.window.End() <= from
    ensures var r := PollWrite(p, content, io); SliceIs(r.content, from, part)
  {
    hide PollWrite, WriteAt, SliceIs;
    PollContent(p, content, io);
    if Reaches(p, io) {
      WriteAtElsewhere(content, TargetOf(p), DataOf(p, io), from, part);
    }
  }

  lemma WriteStaysBounded(p: Part, content: Bytes, io: FileIo)
    requires WriteBounded(p) && !PollWrite(p, content, io).Panicked?
    ensures WriteBounded(PollWrite(p, content, io).part)
  {
    hide WriteAt;
  }

  /** Writing bytes again where they already are changes none of them. */
  lemma RewriteKeeps(p: Part, content: Bytes, io: FileIo, part: Bytes)
    requires WriteOnTrack(p, content) && !WriteAstray(p, io) && PollWrite(p, content, io).PartPoll?
    requires SliceIs(content, p.window.offset, part)
    requires p.window.length == |part| <= |p.block| && p.block[..|part|] == part
    ensures SliceIs(PollWrite(p, content, io).content, p.window.offset, part)
  {
    hide PollWrite, WriteAt, SliceIs;
    PollContent(p, content, io);
    if Reaches(p, io) {
      var data := DataOf(p, io);
      assert data == part[p.moved..p.moved + |data|];
      if data == [] {
        WriteAtNothing(content, TargetOf(p));
      } else {
        SameAgain(content, p.window.offset, part, p.moved, p.moved + |data|);
      }
    }
  }

  lemma SameAgain(content: Bytes, from: nat, part: Bytes, a: nat, b: nat)
    requires SliceIs(content, from, part) && a < b <= |part|
    ensures SliceIs(WriteAt(content, from + a, part[a..b]), from, part)
  {
    hide WriteAt, SliceIs;
    var r := WriteAt(content, from + a, part[a..b]);
    SliceByIndex(content, from, part);
    SliceByIndex(r, from, part);
    WriteAtFacts(content, from + a, part[a..b]);
    forall i | 0 <= i < |part|
      ensures r[from + i] == part[i]
    {
      if a <= i < b {
        assert r[from + a + (i - a)] == part[a..b][i - a];
      }
    }
  }

  // ---------------------------------------------------------------- a write from start to end

  /** Poll one write until it comes back ready or there are no more answers. */
  function RunWrite(p: Part, content: Bytes, ios: seq<FileIo>): PartPoll
    decreases |ios|
  {
    if ios == [] then PartPoll(p, content, false)
    else
      var r := PollWrite(p, content, ios[0]);
      if r.Panicked? || r.ready then r else RunWrite(r.part, r.content, ios[1..])
  }

  ghost predicate AnyWriteAstray(p: Part, content: Bytes, ios: seq<FileIo>)
    decreases |ios|
  {
    && ios != []
    && (|| WriteAstray(p, ios[0])
        || var r := PollWrite(p, content, ios[0]);
           r.PartPoll? && !r.ready && AnyWriteAstray(r.part, r.content, ios[1..]))
  }

  /** Off track: part of the block is about to go, or has gone, to the wrong place, and too few bytes are left to
      reach the end of the window. */
  predicate OffTrack(p: Part) {
    && p.moved <= p.window.length
    && (p.phase.Seek? ==> p.moved > 0)
    && (p.phase.Process? ==> p.cursor < p.window.offset + p.moved)
  }

  /** Position `at` holds what it held before, or is still behind the end of the file. */
  predicate Untouched(before: Bytes, after: Bytes, at: nat) {
    if at < |before| then at < |after| && after[at] == before[at] else |after| <= at
  }

  /** What is written below a position does not touch it. */
  lemma WriteBelow(content: Bytes, pos: nat, data: Bytes, at: nat)
    requires pos + |data| <= at
    ensures Untouched(content, WriteAt(content, pos, data), at)
  {
    if data != [] {
      WriteAtFacts(content, pos, data);
    }
  }

  lemma OffTrackStep(p: Part, content: Bytes, io: FileIo)
    requires OffTrack(p) && !PollWrite(p, content, io).Panicked? && p.window.length > 0
    ensures var r := PollWrite(p, content, io);
            OffTrack(r.part) && Untouched(content, r.content, p.window.End() - 1)
  {
    hide WriteAt;
    PollContent(p, content, io);
    if Reaches(p, io) {
      WriteBelow(content, TargetOf(p), DataOf(p, io), p.window.End() - 1);
    }
  }

  lemma SameWindow(p: Part, content: Bytes, io: FileIo)
    requires !PollWrite(p, content, io).Panicked?
    ensures var r := PollWrite(p, content, io);
            r.part.window == p.window && r.part.block == p.block && r.part.file == p.file
  {
    hide WriteAt;
  }

  lemma {:induction false} OffTrackRun(p: Part, content: Bytes, ios: seq<FileIo>)
    requires p.window.length > 0 && OffTrack(p) && !RunWrite(p, content, ios).Panicked?
    ensures var r := RunWrite(p, content, ios); Untouched(content, r.content, p.window.End() - 1)
    decreases |ios|
  {
    hide PollWrite, OffTrack;
    if ios != [] {
      var r := PollWrite(p, content, ios[0]);
      OffTrackStep(p, content, ios[0]);
      SameWindow(p, content, ios[0]);
      if !r.ready {
        OffTrackRun(r.part, r.content, ios[1..]);
      }
    }
  }

  /** Once past the seek phase nothing goes astray any more. */
  lemma {:induction false} ProcessNeverAstray(p: Part, content: Bytes, ios: seq<FileIo>)
    requires !p.phase.Seek?
    ensures !AnyWriteAstray(p, content, ios)
    decreases |ios|
  {
    hide WriteAt;
    if ios != [] {
      var r := PollWrite(p, content, ios[0]);
      if r.PartPoll? && !r.ready {
        ProcessNeverAstray(r.part, r.content, ios[1..]);
      }
    }
  }

  /** A poll in the seek phase that does not end it leaves the last byte of the window alone. */
  lemma SeekLeavesLast(p: Part, content: Bytes, io: FileIo)
    requires p.phase.Seek? && p.moved <= p.window.length && p.window.length > 0 && !PollWrite(p, content, io).Panicked?
    requires PollWrite(p, content, io).part.phase.Seek?
    ensures Untouched(content, PollWrite(p, content, io).content, p.window.End() - 1)
  {
    hide WriteAt;
    PollContent(p, content, io);
    if Reaches(p, io) {
      WriteBelow(content, TargetOf(p), DataOf(p, io), p.window.End() - 1);
    }
  }

  /** A run that goes astray leaves the last byte of the window alone; one that does not stays on track. */
  lemma {:induction false} AstrayRun(p: Part, content: Bytes, ios: seq<FileIo>)
    requires p.window.length > 0 && WriteOnTrack(p, content) && !RunWrite(p, content, ios).Panicked?
    ensures var r := RunWrite(p, content, ios);
            if AnyWriteAstray(p, content, ios) then p.phase.Seek? ==> Untouched(content, r.content, p.window.End() - 1)
            else WriteOnTrack(r.part, r.content) && r.part.window == p.window && r.part.block == p.block
    decreases |ios|
  {
    hide PollWrite, WriteOnTrack;
    if ios != [] {
      var r := PollWrite(p, content, ios[0]);
      SameWindow(p, content, ios[0]);
      OnTrackBound(p, content);
      if WriteAstray(p, ios[0]) {
        OffTrackRun(p, content, ios);
      } else {
        WriteStaysOnTrack(p, content, ios[0]);
        if !r.ready {
          AstrayRun(r.part, r.content, ios[1..]);
          if !r.part.phase.Seek? {
            ProcessNeverAstray(r.part, r.content, ios[1..]);
          } else if p.phase.Seek? {
            SeekLeavesLast(p, content, ios[0]);
          }
        }
      }
    }
  }

  lemma OnTrackBound(p: Part, content: Bytes)
    requires WriteOnTrack(p, content)
    ensures p.moved <= p.window.length
  {
  }

  /** A write that runs to completion has put the block into its window if and only if no first transfer after a
      seek went astray, whenever the last byte makes a difference. */
  lemma WriteExact(file: FileId, cursor: nat, window: FileWindow, block: Bytes, content: Bytes, ios: seq<FileIo>)
    requires window.length == |block| > 0
    requires window.End() <= |content| ==> content[window.End() - 1] != block[|block| - 1]
    requires var r := RunWrite(Part(file, cursor, window, Seek, block, 0), content, ios);
             r.PartPoll? && r.part.phase.Done?
    ensures var p := Part(file, cursor, window, Seek, block, 0);
            SliceIs(RunWrite(p, content, ios).content, window.offset, block) <==> !AnyWriteAstray(p, content, ios)
  {
    var p := Part(file, cursor, window, Seek, block, 0);
    var r := RunWrite(p, content, ios);
    AstrayRun(p, content, ios);
    hide RunWrite, AnyWriteAstray;
    assert block[..|block|] == block;
    if SliceIs(r.content, window.offset, block) {
      SliceByIndex(r.content, window.offset, block);
      assert r.content[window.offset + (|block| - 1)] == block[|block| - 1];
    }
  }

  /** A short first write: the second one starts over, and a write that counts as complete has lost a byte. */
  lemma ShortWriteMisplaces(file: FileId)
    ensures var p := Part(file, 0, FileWindow(0, 2), Seek, [1, 2], 0);
            var ios := [FileIo(SeekDone, Moved(1)), FileIo(SeekDone, Moved(1))];
            var r := RunWrite(p, [], ios);
            r.PartPoll? && r.part.phase.Done? && r.part.moved == 2 && r.content == [2]
  {
    var p := Part(file, 0, FileWindow(0, 2), Seek, [1, 2], 0);
    var io := FileIo(SeekDone, Moved(1));
    var q := p.(cursor := 1, moved := 1);
    assert p.block[0..1] == [1] && p.block[1..2] == [2];
    assert WriteAt([], 0, [1]) == [1] && WriteAt([1], 0, [2]) == [2];
    assert PollWrite(p, [], io) == PartPoll(q, [1], false);
    assert PollWrite(q, [1], io) == PartPoll(q.(cursor := 1, moved := 2, phase := Done), [2], true);
    assert [io, io][1..] == [io];
  }

  /** How a write goes on does not depend on what is in the file. */
  lemma {:induction false} SameCourse(p: Part, a: Bytes, b: Bytes, ios: seq<FileIo>)
    ensures RunWrite(p, a, ios).Panicked? <==> RunWrite(p, b, ios).Panicked?
    ensures RunWrite(p, a, ios).PartPoll? ==> RunWrite(p, a, ios).part == RunWrite(p, b, ios).part
    ensures AnyWriteAstray(p, a, ios) <==> AnyWriteAstray(p, b, ios)
    decreases |ios|
  {
    hide WriteAt;
    if ios != [] {
      var q, r := PollWrite(p, a, ios[0]), PollWrite(p, b, ios[0]);
      if q.PartPoll? && !q.ready {
        SameCourse(q.part, q.content, r.content, ios[1..]);
      }
    }
  }

  /** Without a proviso: answers that complete a write put its block into every file, whatever is in it, if and
      only if no first transfer after a seek goes astray. */
  lemma WriteExactForEveryFile(file: FileId, cursor: nat, window: FileWindow, block: Bytes, ios: seq<FileIo>)
    requires window.length == |block| > 0
    requires var r := RunWrite(Part(file, cursor, window, Seek, block, 0), [], ios); r.PartPoll? && r.part.phase.Done?
    ensures var p := Part(file, cursor, window, Seek, block, 0);
            (forall content ::
               var r := RunWrite(p, content, ios); r.PartPoll? && SliceIs(r.content, window.offset, block))
            <==> !AnyWriteAstray(p, [], ios)
  {
    var p := Part(file, cursor, window, Seek, block, 0);
    hide RunWrite, AnyWriteAstray;
    WriteExact(file, cursor, window, block, [], ios);
    assert block[..|block|] == block;
    forall content
      ensures RunWrite(p, content, ios).PartPoll?
      ensures !AnyWriteAstray(p, [], ios) ==> SliceIs(RunWrite(p, content, ios).content, window.offset, block)
    {
      SameCourse(p, content, [], ios);
      AstrayRun(p, content, ios);
    }
  }

  // ---------------------------------------------------------------- what a read sees

  /** The read holds the bytes of the file from the start of its window; past the seek phase, it is about to go on
      behind them. */
  ghost predicate ReadOnTrack(p: Part, content: Bytes) {
    && |p.block| == p.moved
    && (p.phase.Process? ==> p.cursor == p.window.offset + p.moved)
    && (p.moved > 0 ==> SliceIs(content, p.window.offset, p.block))
  }

  /** Where the first transfer after a seek starts; a failed seek leaves the cursor where it was. */
  function Landing(p: Part, io: FileIo): nat {
    if io.seek.SeekDone? then p.window.offset else p.cursor
  }

  /** The first read after a seek goes astray: it does not start where the bytes read so far end, because an
      earlier one was short, or because the seek failed with the cursor elsewhere. A read that finds nothing
      does no harm. */
  predicate ReadAstray(p: Part, content: Bytes, io: FileIo) {
    && p.phase.Seek? && !io.seek.SeekLater? && Starts(io.transfer)
    && Landing(p, io) != p.window.offset + p.moved
    && (io.transfer.Moved? ==> Landing(p, io) < |content|)
  }

  /** What one transfer of a read takes from the file. */
  function BytesTaken(content: Bytes, cursor: nat, t: Transfer): (got: Bytes)
    ensures got == [] || SliceIs(content, cursor, got)
  {
    if t.Moved? && cursor <= |content| then content[cursor..cursor + Min(t.count, |content| - cursor)] else []
  }

  /** A transfer appends what it takes and goes on behind it. */
  lemma TransferTakes(p: Part, content: Bytes, t: Transfer)
    ensures var r, got := TransferRead(p, content, t), BytesTaken(content, p.cursor, t);
            && r.PartPoll? && r.content == content && r.part.window == p.window && r.part.file == p.file
            && r.part.block == p.block + got && r.part.moved == p.moved + |got| && r.part.cursor == p.cursor + |got|
            && r.part.phase == (if t.TransferLater? then Process
                                else if t.Moved? && r.part.moved >= p.window.length then Done else p.phase)
            && (r.ready <==> t.TransferFailed? || (t.Moved? && r.part.moved >= p.window.length))
  {
    assert p.block + [] == p.block;
  }

  /** Appending what stands right behind keeps a slice a slice. */
  lemma SliceExtends(content: Bytes, from: nat, part: Bytes, more: Bytes)
    requires part != [] ==> SliceIs(content, from, part)
    requires more != [] ==> SliceIs(content, from + |part|, more)
    ensures part + more != [] ==> SliceIs(content, from, part + more)
  {
    if part != [] && more != [] {
      assert content[from..from + |part + more|]
          == content[from..from + |part|] + content[from + |part|..from + |part + more|];
    } else {
      assert part == [] ==> part + more == more;
      assert more == [] ==> part + more == part;
    }
  }

  lemma TransferReads(p: Part, content: Bytes, t: Transfer)
    requires |p.block| == p.moved && p.cursor == p.window.offset + p.moved
    requires p.moved > 0 ==> SliceIs(content, p.window.offset, p.block)
    ensures var r := TransferRead(p, content, t);
            && r.PartPoll? && r.content == content && r.part.window == p.window
            && |r.part.block| == r.part.moved && r.part.cursor == p.window.offset + r.part.moved
            && (r.part.moved > 0 ==> SliceIs(content, p.window.offset, r.part.block))
  {
    hide TransferRead, BytesTaken, SliceIs;
    TransferTakes(p, content, t);
    SliceExtends(content, p.window.offset, p.block, BytesTaken(content, p.cursor, t));
  }

  /** Unless it goes astray, a read on track stays on track. */
  lemma ReadStaysOnTrack(p: Part, content: Bytes, io: FileIo)
    requires ReadOnTrack(p, content) && !ReadAstray(p, content, io)
    ensures var r := PollRead(p, content, io);
            r.PartPoll? && r.content == content && ReadOnTrack(r.part, content)
  {
    hide TransferRead, SliceIs;
    if p.phase.Process? {
      TransferReads(p, content, io.transfer);
    } else if p.phase.Seek? && !io.seek.SeekLater? {
      var q := p.(cursor := Landing(p, io));
      if q.cursor == p.window.offset + p.moved {
        TransferReads(q, content, io.transfer);
      } else {
        TransferTakes(q, content, io.transfer);
        assert BytesTaken(content, q.cursor, io.transfer) == [] && p.block + [] == p.block;
      }
    }
  }

  // ---------------------------------------------------------------- a read from start to end

  /** Poll one read until it comes back ready or there are no more answers. */
  function RunRead(p: Part, content: Bytes, ios: seq<FileIo>): (r: PartPoll)
    ensures r.PartPoll?
    decreases |ios|
  {
    if ios == [] then PartPoll(p, content, false)
    else
      var r := PollRead(p, content, ios[0]);
      if r.ready then r else RunRead(r.part, content, ios[1..])
  }

  ghost predicate AnyReadAstray(p: Part, content: Bytes, ios: seq<FileIo>)
    decreases |ios|
  {
    && ios != []
    && (|| ReadAstray(p, content, ios[0])
        || var r := PollRead(p, content, ios[0]); !r.ready && AnyReadAstray(r.part, content, ios[1..]))
  }

  /** The job of the read delivers a block. */
  predicate Delivers(p: Part, content: Bytes, ios: seq<FileIo>) {
    var r := RunRead(p, content, ios);
    r.ready && |r.part.block| == p.window.length
  }

  /** The first byte of the window stands nowhere else in the file. */
  predicate FirstByteUnique(content: Bytes, offset: nat) {
    offset < |content| ==> forall i :: 0 <= i < |content| && i != offset ==> content[i] != content[offset]
  }

  /** A read in progress: the counters agree, and there is something left to read. */
  predicate Counting(p: Part) {
    |p.block| == p.moved && (!p.phase.Done? ==> p.moved < p.window.length)
  }

  /** In the seek phase, the cursor is where a seek or the bytes read so far have put it. */
  predicate Parked(p: Part) {
    p.phase.Seek? && p.moved > 0 ==> p.cursor == p.window.offset || p.cursor == p.window.offset + p.moved
  }

  /** The read holds, or is about to take, a byte that does not belong where it puts it. */
  ghost predicate Spoiled(p: Part, content: Bytes) {
    || (p.block != [] && !SliceIs(content, p.window.offset, p.block))
    || (p.phase.Process? && p.cursor != p.window.offset + p.moved && (p.moved > 0 ==> p.cursor == p.window.offset))
  }

  /** A slice that starts with a wrong byte, behind right or wrong ones, makes the whole wrong. */
  lemma WrongByte(content: Bytes, from: nat, block: Bytes, cursor: nat, got: Bytes)
    requires FirstByteUnique(content, from) && got != [] && SliceIs(content, cursor, got)
    requires cursor != from + |block| && (block != [] ==> cursor == from)
    ensures !SliceIs(content, from, block + got)
  {
    hide SliceIs;
    SliceByIndex(content, cursor, got);
    SliceByIndex(content, from, block + got);
    assert content[cursor + 0] == got[0] && (block + got)[|block|] == got[0];
  }

  lemma WrongStays(content: Bytes, from: nat, block: Bytes, got: Bytes)
    requires block != [] && !SliceIs(content, from, block)
    ensures !SliceIs(content, from, block + got)
  {
    hide SliceIs;
    SliceByIndex(content, from, block);
    SliceByIndex(content, from, block + got);
    assert forall i :: 0 <= i < |block| ==> (block + got)[i] == block[i];
  }

  /** What a transfer from a wrong place, or behind wrong bytes, leaves behind is spoiled. */
  lemma TransferSpoils(p: Part, content: Bytes, t: Transfer)
    requires FirstByteUnique(content, p.window.offset) && |p.block| == p.moved < p.window.length
    requires || (p.block != [] && !SliceIs(content, p.window.offset, p.block))
             || (&& p.cursor != p.window.offset + p.moved && (p.moved > 0 ==> p.cursor == p.window.offset)
                 && (p.phase.Process? || (Starts(t) && (t.Moved? ==> p.cursor < |content|))))
    ensures Spoiled(TransferRead(p, content, t).part, content)
  {
    hide TransferRead, SliceIs, FirstByteUnique;
    TransferTakes(p, content, t);
    var got := BytesTaken(content, p.cursor, t);
    if p.block != [] && !SliceIs(content, p.window.offset, p.block) {
      WrongStays(content, p.window.offset, p.block, got);
    } else if got != [] {
      WrongByte(content, p.window.offset, p.block, p.cursor, got);
    } else {
      assert p.block + got == p.block;
    }
  }

  /** A poll that goes astray, or follows one that did, spoils the read. */
  lemma ReadSpoils(p: Part, content: Bytes, io: FileIo)
    requires FirstByteUnique(content, p.window.offset) && Counting(p)
    requires Spoiled(p, content) || (Parked(p) && ReadAstray(p, content, io))
    ensures Spoiled(PollRead(p, content, io).part, content)
  {
    hide TransferRead, SliceIs, FirstByteUnique;
    if p.phase.Process? {
      TransferSpoils(p, content, io.transfer);
    } else if p.phase.Seek? && !io.seek.SeekLater? {
      TransferSpoils(p.(cursor := Landing(p, io)), content, io.transfer);
    }
  }

  lemma StaysCounting(p: Part, content: Bytes, io: FileIo)
    requires Counting(p)
    ensures var r := PollRead(p, content, io);
            && Counting(r.part) && r.part.window == p.window
            && (r.ready && |r.part.block| == p.window.length ==> r.part.phase.Done?)
    ensures Parked(p) && !ReadAstray(p, content, io) ==> Parked(PollRead(p, content, io).part)
  {
    hide TransferRead;
    TransferTakes(if p.phase.Seek? then p.(cursor := Landing(p, io)) else p, content, io.transfer);
  }

  lemma {:induction false} SpoiledRun(p: Part, content: Bytes, ios: seq<FileIo>)
    requires FirstByteUnique(content, p.window.offset) && Counting(p) && Spoiled(p, content)
    requires Delivers(p, content, ios)
    ensures !SliceIs(content, p.window.offset, RunRead(p, content, ios).part.block)
    decreases |ios|
  {
    hide PollRead, FirstByteUnique, SliceIs;
    var r := PollRead(p, content, ios[0]);
    ReadSpoils(p, content, ios[0]);
    StaysCounting(p, content, ios[0]);
    if !r.ready {
      SpoiledRun(r.part, content, ios[1..]);
    }
  }

  /** A read that goes astray and still delivers delivers the wrong bytes. */
  lemma {:induction false} AstrayReadRun(p: Part, content: Bytes, ios: seq<FileIo>)
    requires FirstByteUnique(content, p.window.offset) && Counting(p) && Parked(p)
    requires AnyReadAstray(p, content, ios) && Delivers(p, content, ios)
    ensures !SliceIs(content, p.window.offset, RunRead(p, content, ios).part.block)
    decreases |ios|
  {
    hide PollRead, FirstByteUnique, SliceIs, ReadAstray, Parked, Spoiled;
    var r := PollRead(p, content, ios[0]);
    StaysCounting(p, content, ios[0]);
    if ReadAstray(p, content, ios[0]) {
      ReadSpoils(p, content, ios[0]);
      if r.ready {
        DoneIsWrong(r.part, content);
      } else {
        SpoiledRun(r.part, content, ios[1..]);
      }
    } else {
      AstrayReadRun(r.part, content, ios[1..]);
    }
  }

  lemma DoneIsWrong(p: Part, content: Bytes)
    requires Spoiled(p, content) && p.phase.Done?
    ensures !SliceIs(content, p.window.offset, p.block)
  {
  }

  lemma {:induction false} TrueReadRun(p: Part, content: Bytes, ios: seq<FileIo>)
    requires ReadOnTrack(p, content) && Counting(p) && !AnyReadAstray(p, content, ios)
    ensures ReadOnTrack(RunRead(p, content, ios).part, content) && RunRead(p, content, ios).part.window == p.window
    decreases |ios|
  {
    hide PollRead, ReadOnTrack, ReadAstray;
    if ios != [] {
      var r := PollRead(p, content, ios[0]);
      ReadStaysOnTrack(p, content, ios[0]);
      StaysCounting(p, content, ios[0]);
      if !r.ready {
        TrueReadRun(r.part, content, ios[1..]);
      }
    }
  }

  /** A read that delivers has the bytes of its window if and only if no first read after a seek went astray,
      whenever the first byte of the window stands nowhere else in the file. */
  lemma ReadExact(file: FileId, cursor: nat, window: FileWindow, content: Bytes, ios: seq<FileIo>)
    requires window.length > 0 && FirstByteUnique(content, window.offset)
    requires Delivers(Part(file, cursor, window, Seek, [], 0), content, ios)
    ensures var p := Part(file, cursor, window, Seek, [], 0);
            SliceIs(content, window.offset, RunRead(p, content, ios).part.block) <==> !AnyReadAstray(p, content, ios)
  {
    hide AnyReadAstray, RunRead, SliceIs;
    var p := Part(file, cursor, window, Seek, [], 0);
    if AnyReadAstray(p, content, ios) {
      AstrayReadRun(p, content, ios);
    } else {
      TrueReadRun(p, content, ios);
    }
  }

  /** A short first read: the second one starts over, and the block delivered has the first byte twice. */
  lemma ShortReadRepeats(file: FileId)
    ensures var p := Part(file, 0, FileWindow(0, 2), Seek, [], 0);
            var ios := [FileIo(SeekDone, Moved(1)), FileIo(SeekDone, Moved(1))];
            Delivers(p, [1, 2], ios) && RunRead(p, [1, 2], ios).part.block == [1, 1]
  {
    var p := Part(file, 0, FileWindow(0, 2), Seek, [], 0);
    var io := FileIo(SeekDone, Moved(1));
    var q := p.(cursor := 1, block := [1], moved := 1);
    assert PollRead(p, [1, 2], io) == PartPoll(q, [1, 2], false);
    assert [1] + [1] == [1, 1];
    assert PollRead(q, [1, 2], io) == PartPoll(q.(block := [1, 1], moved := 2, phase := Done), [1, 2], true);
    assert [io, io][1..] == [io];
  }

  /** A failed seek is not noticed: the block delivered comes from where the cursor happened to be. */
  lemma FailedSeekReadsElsewhere(file: FileId)
    ensures var p := Part(file, 1, FileWindow(0, 1), Seek, [], 0);
            var ios := [FileIo(SeekFailed, Moved(1))];
            Delivers(p, [1, 2], ios) && RunRead(p, [1, 2], ios).part.block == [2]
  {
    var p := Part(file, 1, FileWindow(0, 1), Seek, [], 0);
    assert [] + [2] == [2];
    assert PollRead(p, [1, 2], FileIo(SeekFailed, Moved(1)))
        == PartPoll(p.(cursor := 2, block := [2], moved := 1, phase := Done), [1, 2], true);
  }

  // ---------------------------------------------------------------- without a proviso

  /** Alike but for the bytes read. */
  predicate Alike(p: Part, q: Part) {
    |p.block| == |q.block| && p.(block := []) == q.(block := [])
  }

  lemma SameAmount(a: Bytes, b: Bytes, cursor: nat, t: Transfer)
    requires |a| == |b|
    ensures |BytesTaken(a, cursor, t)| == |BytesTaken(b, cursor, t)|
  {
  }

  lemma AlikePoll(p: Part, q: Part, a: Bytes, b: Bytes, io: FileIo)
    requires Alike(p, q) && |a| == |b|
    ensures ReadAstray(p, a, io) <==> ReadAstray(q, b, io)
    ensures var r, s := PollRead(p, a, io), PollRead(q, b, io); Alike(r.part, s.part) && r.ready == s.ready
  {
    hide TransferRead, BytesTaken;
    var p1 := if p.phase.Seek? then p.(cursor := Landing(p, io)) else p;
    var q1 := if q.phase.Seek? then q.(cursor := Landing(q, io)) else q;
    TransferTakes(p1, a, io.transfer);
    TransferTakes(q1, b, io.transfer);
    SameAmount(a, b, p1.cursor, io.transfer);
  }

  /** How a read goes on depends on the size of the file, not on what is in it. */
  lemma {:induction false} AlikeRuns(p: Part, q: Part, a: Bytes, b: Bytes, ios: seq<FileIo>)
    requires Alike(p, q) && |a| == |b|
    ensures AnyReadAstray(p, a, ios) <==> AnyReadAstray(q, b, ios)
    ensures Delivers(p, a, ios) <==> Delivers(q, b, ios)
    decreases |ios|
  {
    hide PollRead, ReadAstray;
    if ios != [] {
      var r, s := PollRead(p, a, ios[0]), PollRead(q, b, ios[0]);
      AlikePoll(p, q, a, b, ios[0]);
      if !r.ready {
        AlikeRuns(r.part, s.part, a, b, ios[1..]);
      }
    }
  }

  /** Zeros, with a one at the given place. */
  function Marked(size: nat, at: nat): (content: Bytes)
    ensures |content| == size && FirstByteUnique(content, at)
  {
    seq(size, i => if i == at then 1 else 0)
  }

  /** The answers give the bytes of the window of the file, if they deliver. */
  ghost predicate ReadsRight(p: Part, content: Bytes, ios: seq<FileIo>) {
    Delivers(p, content, ios) ==> SliceIs(content, p.window.offset, RunRead(p, content, ios).part.block)
  }

  /** Without a proviso: answers that deliver deliver the bytes of the window of every file of that size if and
      only if no first read after a seek goes astray. */
  lemma ReadExactForEveryFile(file: FileId, cursor: nat, window: FileWindow, size: nat, ios: seq<FileIo>)
    requires window.length > 0 && Delivers(Part(file, cursor, window, Seek, [], 0), Marked(size, window.offset), ios)
    ensures var p := Part(file, cursor, window, Seek, [], 0);
            (forall content :: |content| == size ==> ReadsRight(p, content, ios))
            <==> !AnyReadAstray(p, Marked(size, window.offset), ios)
  {
    hide AnyReadAstray, RunRead, SliceIs, Delivers, FirstByteUnique;
    var p, marked := Part(file, cursor, window, Seek, [], 0), Marked(size, window.offset);
    ReadExact(file, cursor, window, marked, ios);
    assert !ReadsRight(p, marked, ios) <==> AnyReadAstray(p, marked, ios);
    forall content | |content| == size
      ensures !AnyReadAstray(p, marked, ios) ==> ReadsRight(p, content, ios)
    {
      AlikeRuns(p, p, content, marked, ios);
      if !AnyReadAstray(p, marked, ios) {
        TrueReadRun(p, content, ios);
        DeliveredIsSlice(p, content, ios);
      }
    }
  }

  lemma DeliveredIsSlice(p: Part, content: Bytes, ios: seq<FileIo>)
    requires p.window.length > 0
    requires var r := RunRead(p, content, ios); ReadOnTrack(r.part, content) && r.part.window == p.window
    ensures ReadsRight(p, content, ios)
  {
  }
}
