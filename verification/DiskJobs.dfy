/** Resumable transfers between a block and a file: `BlockFileWrite`, `BlockFileRead` and `BlockJob` of
    src/disk/block.rs. */
module DiskJobs {
  import opened Collections
  import opened Messages
  import opened Blocks
  import opened DiskFiles

  datatype Phase = Seek | Process | Done

  /** A transfer in one file. `block` is what is written, or what has been read; `moved` counts the bytes
      written or read. The file handle is the file and its cursor. */
  datatype Part = Part(file: FileId, cursor: nat, window: FileWindow, phase: Phase, block: Bytes, moved: nat) {
    function Left(): int {
      window.length - moved
    }
  }

  /** The answers of the file system to one poll. */
  datatype SeekIo = SeekLater | SeekDone | SeekFailed
  datatype Transfer = TransferLater | TransferFailed | Moved(count: nat)
  datatype FileIo = FileIo(seek: SeekIo, transfer: Transfer)

  const NO_IO := FileIo(SeekLater, TransferLater)

  /** The transfer and the file after a poll, and whether the poll came back ready. */
  datatype PartPoll = PartPoll(part: Part, content: Bytes, ready: bool) | Panicked

  function Zeros(n: nat): Bytes {
    seq(n, _ => 0)
  }

  /** Write at a position; a gap behind the end of the file is filled with zeros. */
  function WriteAt(content: Bytes, pos: nat, data: Bytes): Bytes {
    if data == [] then content
    else
      var padded := if |content| < pos then content + Zeros(pos - |content|) else content;
      padded[..pos] + data + if pos + |data| < |padded| then padded[pos + |data|..] else []
  }

  // ---------------------------------------------------------------- writing

  function TransferWrite(p: Part, content: Bytes, t: Transfer): PartPoll {
    if !(p.moved <= p.window.length <= |p.block|) then Panicked
    else match t
      case TransferLater => PartPoll(p.(phase := Process), content, false)
      case TransferFailed => PartPoll(p, content, true)
      case Moved(n) =>
        var k := Min(n, p.Left());
        var content' := WriteAt(content, p.cursor, p.block[p.moved..p.moved + k]);
        var q := p.(cursor := p.cursor + k, moved := p.moved + k);
        if q.moved < q.window.length then PartPoll(q, content', false) else PartPoll(q.(phase := Done), content', true)
  }

  /** `BlockFileWrite::poll`. */
  function PollWrite(p: Part, content: Bytes, io: FileIo): PartPoll {
    match p.phase
    case Done => PartPoll(p, content, true)
    case Process => TransferWrite(p, content, io.transfer)
    case Seek =>
      match io.seek
      case SeekLater => PartPoll(p, content, false)
      case SeekFailed => PartPoll(p, content, true)
      case SeekDone => TransferWrite(p.(cursor := p.window.offset), content, io.transfer)
  }

  /** A write in progress, with the fields of the source. */
  class BlockFileWrite {
    const file: FileId
    const block: Bytes
    const fileWindow: FileWindow
    var cursor: nat
    var written: nat
    var state: Phase

    ghost function Model(): Part
      reads this
    {
      Part(file, cursor, fileWindow, state, block, written)
    }

    constructor (file: FileId, cursor: nat, block: Bytes, window: FileWindow)
      ensures Model() == Part(file, cursor, window, Seek, block, 0)
    {
      this.file, this.block, this.fileWindow := file, block, window;
      this.cursor, this.written, this.state := cursor, 0, Seek;
    }

    /** One write call at the cursor: the file, whether it came back, and whether it failed. */
    method Transfer(content: Bytes, t: Transfer) returns (after: Bytes, ready: bool, panicked: bool)
      modifies this
      ensures panicked == TransferWrite(old(Model()), content, t).Panicked?
      ensures !panicked ==> PartPoll(Model(), after, ready) == TransferWrite(old(Model()), content, t)
    {
      after, ready, panicked := content, false, false;
      if !(written <= fileWindow.length <= |block|) {
        panicked := true;
        return;
      }
      match t {
        case TransferLater => state := Process;
        case TransferFailed => ready := true;
        case Moved(n) =>
          var k := Min(n, fileWindow.length - written);
          after := WriteAt(content, cursor, block[written..written + k]);
          cursor := cursor + k;
          written := written + k;
          if written >= fileWindow.length {
            state := Done;
            ready := true;
          }
      }
    }

    method Poll(content: Bytes, io: FileIo) returns (after: Bytes, ready: bool, panicked: bool)
      modifies this
      ensures panicked == PollWrite(old(Model()), content, io).Panicked?
      ensures !panicked ==> PartPoll(Model(), after, ready) == PollWrite(old(Model()), content, io)
    {
      after, ready, panicked := content, false, false;
      match state {
        case Done => ready := true;
        case Process => after, ready, panicked := Transfer(content, io.transfer);
        case Seek =>
          if io.seek.SeekFailed? {
            ready := true;
          } else if io.seek.SeekDone? {
            cursor := fileWindow.offset;
            after, ready, panicked := Transfer(content, io.transfer);
          }
      }
    }
  }

  // ---------------------------------------------------------------- reading

  function TransferRead(p: Part, content: Bytes, t: Transfer): PartPoll {
    match t
    case TransferLater => PartPoll(p.(phase := Process), content, false)
    case TransferFailed => PartPoll(p, content, true)
    case Moved(n) =>
      var k := if p.cursor <= |content| then Min(n, |content| - p.cursor) else 0;
      var got := if k > 0 then content[p.cursor..p.cursor + k] else [];
      var q := p.(block := p.block + got, cursor := p.cursor + k, moved := p.moved + k);
      if q.moved < q.window.length then PartPoll(q, content, false) else PartPoll(q.(phase := Done), content, true)
  }

  /** `BlockFileRead::poll`: a failed seek is not noticed. A read never panics and leaves the file alone. */
  function PollRead(p: Part, content: Bytes, io: FileIo): (r: PartPoll)
    ensures r.PartPoll? && r.content == content && r.part.window == p.window && r.part.file == p.file
  {
    match p.phase
    case Done => PartPoll(p, content, true)
    case Process => TransferRead(p, content, io.transfer)
    case Seek =>
      match io.seek
      case SeekLater => PartPoll(p, content, false)
      case SeekFailed => TransferRead(p, content, io.transfer)
      case SeekDone => TransferRead(p.(cursor := p.window.offset), content, io.transfer)
  }

  /** A read in progress, with the fields of the source. */
  class BlockFileRead {
    const file: FileId
    const fileWindow: FileWindow
    var cursor: nat
    var block: Bytes
    var read: nat
    var state: Phase

    ghost function Model(): Part
      reads this
    {
      Part(file, cursor, fileWindow, state, block, read)
    }

    constructor (file: FileId, cursor: nat, window: FileWindow)
      ensures Model() == Part(file, cursor, window, Seek, [], 0)
    {
      this.file, this.fileWindow := file, window;
      this.cursor, this.block, this.read, this.state := cursor, [], 0, Seek;
    }

    method Transfer(content: Bytes, t: Transfer) returns (ready: bool)
      modifies this
      ensures PartPoll(Model(), content, ready) == TransferRead(old(Model()), content, t)
    {
      ready := false;
      match t {
        case TransferLater => state := Process;
        case TransferFailed => ready := true;
        case Moved(n) =>
          var k := if cursor <= |content| then Min(n, |content| - cursor) else 0;
          if k > 0 {
            block := block + content[cursor..cursor + k];
          } else {
            assert block + [] == block;
          }
          cursor := cursor + k;
          read := read + k;
          if read >= fileWindow.length {
            state := Done;
            ready := true;
          }
      }
    }

    method Poll(content: Bytes, io: FileIo) returns (ready: bool)
      modifies this
      ensures PartPoll(Model(), content, ready) == PollRead(old(Model()), content, io)
    {
      match state {
        case Done => ready := true;
        case Process => ready := Transfer(content, io.transfer);
        case Seek =>
          if io.seek.SeekLater? {
            ready := false;
          } else {
            if io.seek.SeekDone? {
              cursor := fileWindow.offset;
            }
            ready := Transfer(content, io.transfer);
          }
      }
    }
  }

  // ---------------------------------------------------------------- jobs

  /** `BlockJob`: one part is the Single form, several are the Overlap form. */
  datatype Job = Job(write: bool, torrent: TorrentId, metadata: BlockMetadata, parts: seq<Part>)

  datatype Files = Files(contents: map<FileId, Bytes>) {
    function At(id: FileId): Bytes {
      if id in contents then contents[id] else []
    }

    function Put(id: FileId, content: Bytes): Files {
      Files(contents[id := content])
    }
  }

  datatype JobPoll = JobPoll(parts: seq<Part>, files: Files, ready: bool) | JobPanicked

  function PollPart(write: bool, p: Part, content: Bytes, io: FileIo): PartPoll {
    if write then PollWrite(p, content, io) else PollRead(p, content, io)
  }

  /** Every part is polled; the job is ready when none is pending. */
  function PollParts(write: bool, parts: seq<Part>, files: Files, ios: seq<FileIo>): JobPoll {
    if parts == [] then JobPoll([], files, true)
    else
      var io := if ios == [] then NO_IO else ios[0];
      match PollPart(write, parts[0], files.At(parts[0].file), io)
      case Panicked => JobPanicked
      case PartPoll(p, content, ready) =>
        match PollParts(write, parts[1..], files.Put(p.file, content), if ios == [] then [] else ios[1..])
        case JobPanicked => JobPanicked
        case JobPoll(rest, files', all) => JobPoll([p] + rest, files', ready && all)
  }

  datatype Out =
    | TorrentAdded(torrent: TorrentId)
    | TorrentError(torrent: TorrentId)
    | BlockRead(torrent: TorrentId, block: Block)
    | PieceWritten(torrent: TorrentId, block: Block)
    | ReadBlockError(torrent: TorrentId)
    | WriteBlockError(torrent: TorrentId)

  /** The bitwise complement of a 64-bit length. */
  function Not64(n: nat): int {
    0xFFFF_FFFF_FFFF_FFFF - n
  }

  function Glued(parts: seq<Part>): Bytes {
    if parts == [] then [] else parts[0].block + Glued(parts[1..])
  }

  /** The message of `finalize_block`; the overlap form compares a complemented length. */
  function Finalize(j: Job): Out {
    if |j.parts| == 1 then
      var p := j.parts[0];
      if j.write then
        if p.moved == p.window.length then PieceWritten(p.file.torrent, Block(j.metadata, p.block))
        else WriteBlockError(p.file.torrent)
      else if |p.block| == p.window.length then BlockRead(p.file.torrent, Block(j.metadata, p.block))
      else ReadBlockError(p.file.torrent)
    else if j.write then
      if forall p :: p in j.parts ==> Not64(p.moved) == |p.block|
      then PieceWritten(j.torrent, Block(j.metadata, Glued(j.parts)))
      else WriteBlockError(j.torrent)
    else if forall p :: p in j.parts ==> Not64(|p.block|) == p.window.length
    then BlockRead(j.torrent, Block(j.metadata, Glued(j.parts)))
    else ReadBlockError(j.torrent)
  }

  /** A block that spans files is never delivered: with lengths below 2^63 its job always fails. */
  lemma OverlapAlwaysFails(j: Job)
    requires |j.parts| >= 2
    requires forall p :: p in j.parts ==> p.moved < 0x8000_0000_0000_0000 && |p.block| < 0x8000_0000_0000_0000
                                          && p.window.length < 0x8000_0000_0000_0000
    ensures Finalize(j) == if j.write then WriteBlockError(j.torrent) else ReadBlockError(j.torrent)
  {
    assert j.parts[0] in j.parts;
  }
}
