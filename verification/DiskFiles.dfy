/** Which bytes of which files a block stands for: `TorrentFile` of src/disk/file.rs. */
module DiskFiles {
  import opened Collections
  import opened Messages
  import opened Blocks

  type TorrentId = nat
  type Digest = Bytes

  datatype FileId = FileId(torrent: TorrentId, file: nat)

  datatype FileEntry = FileEntry(id: FileId, offset: nat, size: nat) {
    function End(): nat {
      offset + size
    }
  }

  datatype FileWindow = FileWindow(offset: nat, length: nat) {
    function End(): nat {
      offset + length
    }
  }

  /** `files` is listed in the order in which the hash set happens to yield its entries. */
  datatype TorrentFile = TorrentFile(id: TorrentId, pieces: seq<Digest>, pieceLength: nat, files: seq<FileEntry>) {
    function StartOf(m: BlockMetadata): nat {
      pieceLength * m.pieceIndex + m.blockOffset
    }

    function EndOf(m: BlockMetadata): nat {
      StartOf(m) + m.blockLength
    }

    predicate InPiece(m: BlockMetadata) {
      m.pieceIndex < |pieces| && m.End() <= pieceLength
    }

    /** The whole block lies in the file. */
    predicate Contains(f: FileEntry, m: BlockMetadata) {
      f.offset <= StartOf(m) && EndOf(m) <= f.End()
    }

    /** `files_for_block`; `None` is the error `BadPiece`. */
    function FilesForBlock(m: BlockMetadata): Option<seq<(FileEntry, FileWindow)>> {
      if InPiece(m) then Some(Scan(files, m, [])) else None
    }

    /** What the loop collects for a file that does not hold the whole block. These are the windows of the
        source, which do not describe the part of the block in the file. */
    function Claim(f: FileEntry, m: BlockMetadata): (c: seq<(FileEntry, FileWindow)>)
      ensures c == [] || (|c| == 1 && c[0].0 == f)
    {
      if f.offset <= StartOf(m) then [(f, FileWindow(StartOf(m) - f.offset, StartOf(m) - f.offset))]
      else if f.End() <= EndOf(m) then [(f, FileWindow(0, EndOf(m) - f.offset + f.size))]
      else []
    }

    /** The rest of the loop over the files: a file that holds the whole block ends it at once. */
    function Scan(fs: seq<FileEntry>, m: BlockMetadata, acc: seq<(FileEntry, FileWindow)>)
      : seq<(FileEntry, FileWindow)>
    {
      if fs == [] then acc
      else if Contains(fs[0], m) then [(fs[0], FileWindow(StartOf(m) - fs[0].offset, m.blockLength))]
      else Scan(fs[1..], m, acc + Claim(fs[0], m))
    }
  }

  /** `files_for_block` as the loop it is. */
  method FilesForBlock(t: TorrentFile, m: BlockMetadata) returns (r: Option<seq<(FileEntry, FileWindow)>>)
    ensures r == t.FilesForBlock(m)
  {
    if !(m.pieceIndex < |t.pieces| && m.blockOffset + m.blockLength <= t.pieceLength) {
      return None;
    }
    var pieceStart := t.pieceLength * m.pieceIndex;
    var blockStart, blockEnd := pieceStart + m.blockOffset, pieceStart + m.blockOffset + m.blockLength;
    var files: seq<(FileEntry, FileWindow)> := [];
    for k := 0 to |t.files|
      invariant t.Scan(t.files, m, []) == t.Scan(t.files[k..], m, files)
    {
      var file := t.files[k];
      assert t.files[k..][1..] == t.files[k + 1..];
      if blockStart >= file.offset {
        if file.offset + file.size >= blockEnd {
          return Some([(file, FileWindow(blockStart - file.offset, m.blockLength))]);
        }
        files := files + [(file, FileWindow(blockStart - file.offset, blockStart - file.offset))];
      } else if file.size + file.offset <= blockEnd {
        files := files + [(file, FileWindow(0, blockEnd - file.offset + file.size))];
      } else {
        assert files + [] == files;
      }
    }
    return Some(files);
  }

  // ---------------------------------------------------------------- laying out the files

  /** The entries that `TorrentFile::new` makes: each file starts where the one before it ends. */
  function Entries(id: TorrentId, sizes: seq<nat>, index: nat, offset: nat): (es: seq<FileEntry>)
    ensures |es| == |sizes|
  {
    if sizes == [] then []
    else [FileEntry(FileId(id, index), offset, sizes[0])] + Entries(id, sizes[1..], index + 1, offset + sizes[0])
  }

  /** The fold of `TorrentFile::new`. */
  method LayOut(id: TorrentId, sizes: seq<nat>) returns (es: seq<FileEntry>)
    ensures es == Entries(id, sizes, 0, 0)
  {
    es := [];
    var offset := 0;
    for i := 0 to |sizes|
      invariant Entries(id, sizes, 0, 0) == es + Entries(id, sizes[i..], i, offset)
    {
      ghost var rest := Entries(id, sizes[i + 1..], i + 1, offset + sizes[i]);
      assert sizes[i..][1..] == sizes[i + 1..];
      var entry := FileEntry(FileId(id, i), offset, sizes[i]);
      assert es + ([entry] + rest) == es + [entry] + rest;
      es := es + [entry];
      offset := offset + sizes[i];
    }
    assert es + [] == es;
  }

  /** Entries have different identifiers and lie one behind the other. */
  lemma {:induction false} EntriesOrdered(id: TorrentId, sizes: seq<nat>, index: nat, offset: nat, i: nat, j: nat)
    requires i < j < |sizes|
    ensures var es := Entries(id, sizes, index, offset);
            es[i].id != es[j].id && offset <= es[i].offset && es[i].End() <= es[j].offset
    decreases j
  {
    if i == 0 {
      EntryFrom(id, sizes[1..], index + 1, offset + sizes[0], j - 1);
    } else {
      EntriesOrdered(id, sizes[1..], index + 1, offset + sizes[0], i - 1, j - 1);
    }
  }

  lemma {:induction false} EntryFrom(id: TorrentId, sizes: seq<nat>, index: nat, offset: nat, j: nat)
    requires j < |sizes|
    ensures var e := Entries(id, sizes, index, offset)[j];
            e.id == FileId(id, index + j) && offset <= e.offset && e.size == sizes[j]
    decreases j
  {
    if j > 0 {
      EntryFrom(id, sizes[1..], index + 1, offset + sizes[0], j - 1);
    }
  }

  /** A torrent as the disk manager keeps it: no file overlaps another or shares its identifier. */
  ghost predicate WellLaid(t: TorrentFile) {
    && (forall i, j :: 0 <= i < j < |t.files| ==>
          && t.files[i].id != t.files[j].id
          && (t.files[i].End() <= t.files[j].offset || t.files[j].End() <= t.files[i].offset))
    && (forall f :: f in t.files ==> f.id.torrent == t.id)
  }

  /** However the hash set orders the entries of a new torrent, it is well laid. */
  lemma NewIsWellLaid(t: TorrentFile, sizes: seq<nat>)
    requires multiset(t.files) == multiset(Entries(t.id, sizes, 0, 0))
    ensures WellLaid(t)
  {
    var es := Entries(t.id, sizes, 0, 0);
    forall f | f in t.files
      ensures f in es && f.id.torrent == t.id
    {
      assert f in multiset(es);
      var k :| 0 <= k < |es| && es[k] == f;
      EntryFrom(t.id, sizes, 0, 0, k);
    }
    forall i, j | 0 <= i < j < |t.files|
      ensures t.files[i].id != t.files[j].id
      ensures t.files[i].End() <= t.files[j].offset || t.files[j].End() <= t.files[i].offset
    {
      var p, q := DistinctPlaces(t.files, es, i, j);
      if p < q {
        EntriesOrdered(t.id, sizes, 0, 0, p, q);
      } else {
        EntriesOrdered(t.id, sizes, 0, 0, q, p);
      }
    }
  }

  /** Some file starts where the content does. */
  ghost predicate Grounded(t: TorrentFile) {
    exists f :: f in t.files && f.offset == 0
  }

  /** A new torrent with at least one file starts at the start of the content. */
  lemma NewIsGrounded(t: TorrentFile, sizes: seq<nat>)
    requires multiset(t.files) == multiset(Entries(t.id, sizes, 0, 0)) && sizes != []
    ensures Grounded(t)
  {
    var es := Entries(t.id, sizes, 0, 0);
    assert es[0] in multiset(es);
    assert es[0] in t.files && es[0].offset == 0;
  }

  /** Two positions of a rearrangement come from two positions of the original. */
  lemma DistinctPlaces(a: seq<FileEntry>, b: seq<FileEntry>, i: nat, j: nat) returns (p: nat, q: nat)
    requires multiset(a) == multiset(b) && i < j < |a|
    ensures p < |b| && q < |b| && p != q && b[p] == a[i] && b[q] == a[j]
  {
    assert a[i] in multiset(b) && a[j] in multiset(b);
    p :| 0 <= p < |b| && b[p] == a[i];
    if a[i] != a[j] {
      q :| 0 <= q < |b| && b[q] == a[j];
    } else {
      q := AnotherPlace(a, b, i, j, p);
    }
  }

  lemma AnotherPlace(a: seq<FileEntry>, b: seq<FileEntry>, i: nat, j: nat, p: nat) returns (q: nat)
    requires multiset(a) == multiset(b) && i < j < |a| && p < |b| && b[p] == a[i] == a[j]
    ensures q < |b| && q != p && b[q] == a[j]
  {
    hide RemoveAt;
    RemoveAtFacts(a, i);
    RemoveAtFacts(b, p);
    CancelOne(multiset(RemoveAt(a, i)), multiset(RemoveAt(b, p)), a[i]);
    RemoveAtIndex(a, i);
    RemoveAtIndex(b, p);
    assert RemoveAt(a, i)[j - 1] in multiset(RemoveAt(a, i));
    var k :| 0 <= k < |RemoveAt(b, p)| && RemoveAt(b, p)[k] == a[j];
    q := if k < p then k else k + 1;
  }

  // ---------------------------------------------------------------- windows

  lemma {:induction false} ScanFinds(t: TorrentFile, fs: seq<FileEntry>, m: BlockMetadata,
                                     acc: seq<(FileEntry, FileWindow)>, f: FileEntry)
    requires f in fs && t.Contains(f, m)
    requires forall g :: g in fs && t.Contains(g, m) ==> g == f
    ensures t.Scan(fs, m, acc) == [(f, FileWindow(t.StartOf(m) - f.offset, m.blockLength))]
  {
    if fs[0] != f {
      ScanFinds(t, fs[1..], m, acc + t.Claim(fs[0], m), f);
    }
  }

  lemma ContainerUnique(t: TorrentFile, m: BlockMetadata, f: FileEntry, g: FileEntry)
    requires WellLaid(t) && m.blockLength > 0
    requires f in t.files && t.Contains(f, m) && g in t.files && t.Contains(g, m)
    ensures f == g
  {
    var i :| 0 <= i < |t.files| && t.files[i] == f;
    var j :| 0 <= j < |t.files| && t.files[j] == g;
  }

  /** The exact answer: one file, and the range of the block in it. */
  predicate IsExact(t: TorrentFile, m: BlockMetadata, f: FileEntry) {
    && t.Contains(f, m)
    && t.FilesForBlock(m) == Some([(f, FileWindow(t.StartOf(m) - f.offset, m.blockLength))])
  }

  /** A non-empty block of a piece gets the exact answer, in whatever order the files are scanned, if
      and only if it lies in one file. */
  lemma WindowExact(t: TorrentFile, m: BlockMetadata)
    requires WellLaid(t) && t.InPiece(m) && m.blockLength > 0
    ensures forall f :: f in t.files ==> (IsExact(t, m, f) <==> t.Contains(f, m))
    ensures forall f, g :: f in t.files && g in t.files && t.Contains(f, m) && t.Contains(g, m) ==> f == g
  {
    forall f, g | f in t.files && g in t.files && t.Contains(f, m) && t.Contains(g, m)
      ensures f == g
    {
      ContainerUnique(t, m, f, g);
    }
    forall f | f in t.files && t.Contains(f, m)
      ensures IsExact(t, m, f)
    {
      ScanFinds(t, t.files, m, [], f);
    }
  }

  /** In a single-file torrent a block that runs past the end of the file is not refused: it gets a
      window whose length is its start position. */
  lemma WindowPastTheEnd(t: TorrentFile, m: BlockMetadata, f: FileEntry)
    requires t.files == [f] && f.offset == 0 && t.InPiece(m) && f.size < t.EndOf(m)
    ensures t.FilesForBlock(m) == Some([(f, FileWindow(t.StartOf(m), t.StartOf(m)))])
  {
    assert !t.Contains(f, m) && t.Claim(f, m) == [(f, FileWindow(t.StartOf(m), t.StartOf(m)))];
    var c := t.Claim(f, m);
    assert t.files[1..] == [] && [] + c == c;
    assert t.Scan(t.files, m, []) == t.Scan(t.files[1..], m, [] + c) == c;
  }

  ghost predicate DifferentIds(files: seq<(FileEntry, FileWindow)>) {
    forall i, j :: 0 <= i < j < |files| ==> files[i].0.id != files[j].0.id
  }

  /** Collecting one more file that was not collected before. */
  lemma ClaimStaysDifferent(t: TorrentFile, fs: seq<FileEntry>, m: BlockMetadata, acc: seq<(FileEntry, FileWindow)>)
    requires fs != [] && DifferentIds(acc)
    requires forall i, j :: 0 <= i < j < |fs| ==> fs[i].id != fs[j].id
    requires forall i, j :: 0 <= i < |acc| && 0 <= j < |fs| ==> acc[i].0.id != fs[j].id
    ensures var acc', rest := acc + t.Claim(fs[0], m), fs[1..];
            && DifferentIds(acc')
            && (forall i, j :: 0 <= i < j < |rest| ==> rest[i].id != rest[j].id)
            && (forall i, j :: 0 <= i < |acc'| && 0 <= j < |rest| ==> acc'[i].0.id != rest[j].id)
            && (forall x :: x in acc' ==> x in acc || x.0 == fs[0])
  {
    hide TorrentFile.Claim;
    var acc', rest := acc + t.Claim(fs[0], m), fs[1..];
    assert forall j :: 0 <= j < |rest| ==> rest[j] == fs[j + 1];
    assert forall i :: 0 <= i < |acc'| ==> if i < |acc| then acc'[i] == acc[i] else acc'[i].0 == fs[0];
  }

  /** The files of a result are files of the torrent, each at most once. */
  lemma {:induction false} ScanFiles(t: TorrentFile, fs: seq<FileEntry>, m: BlockMetadata,
                                     acc: seq<(FileEntry, FileWindow)>)
    requires forall i, j :: 0 <= i < j < |fs| ==> fs[i].id != fs[j].id
    requires forall i, j :: 0 <= i < |acc| && 0 <= j < |fs| ==> acc[i].0.id != fs[j].id
    requires DifferentIds(acc)
    ensures var r := t.Scan(fs, m, acc); DifferentIds(r) && forall x :: x in r ==> x in acc || x.0 in fs
  {
    hide TorrentFile.Claim;
    if fs != [] && !t.Contains(fs[0], m) {
      ClaimStaysDifferent(t, fs, m, acc);
      ScanFiles(t, fs[1..], m, acc + t.Claim(fs[0], m));
    }
  }

  lemma FilesDistinct(t: TorrentFile, m: BlockMetadata)
    requires WellLaid(t) && t.FilesForBlock(m).Some?
    ensures var r := t.FilesForBlock(m).value; DifferentIds(r) && forall x :: x in r ==> x.0 in t.files
  {
    hide TorrentFile.Scan;
    var none: seq<(FileEntry, FileWindow)> := [];
    assert forall i, j :: 0 <= i < j < |t.files| ==> t.files[i].id != t.files[j].id;
    assert DifferentIds(none);
    ScanFiles(t, t.files, m, none);
  }

  /** No file is claimed if and only if every file starts behind the start of the block and ends behind its end. */
  lemma {:induction false} NoFileExact(t: TorrentFile, fs: seq<FileEntry>, m: BlockMetadata,
                                       acc: seq<(FileEntry, FileWindow)>)
    ensures t.Scan(fs, m, acc) == [] <==>
              acc == [] && forall f :: f in fs ==> t.StartOf(m) < f.offset && t.EndOf(m) < f.End()
  {
    if fs != [] && !t.Contains(fs[0], m) {
      NoFileExact(t, fs[1..], m, acc + t.Claim(fs[0], m));
      assert fs == [fs[0]] + fs[1..];
    }
  }
}
