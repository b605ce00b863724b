/** Exactly when `files_for_block` claims the right windows (src/disk/file.rs). */
module Windows {
  import opened Collections
  import opened Blocks
  import opened DiskFiles

  /** The first and the last position of the block in the file, if it has any there. */
  function Low(t: TorrentFile, m: BlockMetadata, f: FileEntry): nat {
    if f.offset <= t.StartOf(m) then t.StartOf(m) else f.offset
  }

  function High(t: TorrentFile, m: BlockMetadata, f: FileEntry): nat {
    if f.End() <= t.EndOf(m) then f.End() else t.EndOf(m)
  }

  /** Some byte of the block is in the file. */
  predicate Meets(t: TorrentFile, m: BlockMetadata, f: FileEntry) {
    Low(t, m, f) < High(t, m, f)
  }

  /** The claimed windows are, file by file, the part of the block that is in the file. */
  ghost predicate WindowsRight(t: TorrentFile, m: BlockMetadata) {
    var claimed := t.FilesForBlock(m);
    && claimed.Some?
    && (forall x :: x in claimed.value ==>
          && x.0 in t.files && Meets(t, m, x.0)
          && x.1 == FileWindow(Low(t, m, x.0) - x.0.offset, High(t, m, x.0) - Low(t, m, x.0)))
    && (forall f :: f in t.files && Meets(t, m, f) ==>
          (f, FileWindow(Low(t, m, f) - f.offset, High(t, m, f) - Low(t, m, f))) in claimed.value)
  }

  /** Byte `x` of the content is in the file. */
  predicate Has(f: FileEntry, x: nat) {
    f.offset <= x < f.End()
  }

  ghost predicate InSomeFile(t: TorrentFile, x: nat) {
    exists f :: f in t.files && Has(f, x)
  }

  /** Every byte of the block is in some file. */
  ghost predicate InContent(t: TorrentFile, m: BlockMetadata) {
    forall x :: t.StartOf(m) <= x < t.EndOf(m) ==> InSomeFile(t, x)
  }

  // ---------------------------------------------------------------- new torrents

  function Total(sizes: seq<nat>): nat {
    if sizes == [] then 0 else sizes[0] + Total(sizes[1..])
  }

  lemma {:induction false} EntriesCover(id: TorrentId, sizes: seq<nat>, index: nat, offset: nat, x: nat)
    requires offset <= x < offset + Total(sizes)
    ensures exists f :: f in Entries(id, sizes, index, offset) && Has(f, x)
    decreases |sizes|
  {
    var es := Entries(id, sizes, index, offset);
    if x < offset + sizes[0] {
      assert Has(es[0], x);
    } else {
      EntriesCover(id, sizes[1..], index + 1, offset + sizes[0], x);
      var f :| f in Entries(id, sizes[1..], index + 1, offset + sizes[0]) && Has(f, x);
      assert f in es;
    }
  }

  /** In a new torrent a block that ends inside the content has all its bytes in files. */
  lemma NewInContent(t: TorrentFile, sizes: seq<nat>, m: BlockMetadata)
    requires multiset(t.files) == multiset(Entries(t.id, sizes, 0, 0)) && t.EndOf(m) <= Total(sizes)
    ensures InContent(t, m)
  {
    var es := Entries(t.id, sizes, 0, 0);
    forall x | t.StartOf(m) <= x < t.EndOf(m)
      ensures InSomeFile(t, x)
    {
      EntriesCover(t.id, sizes, 0, 0, x);
      var f :| f in es && Has(f, x);
      assert f in multiset(es);
      assert f in t.files;
    }
  }

  // ---------------------------------------------------------------- one file

  lemma OnlyOneMeets(t: TorrentFile, m: BlockMetadata, f: FileEntry, g: FileEntry)
    requires WellLaid(t) && f in t.files && g in t.files && t.Contains(f, m) && Meets(t, m, g)
    ensures g == f
  {
    var i :| 0 <= i < |t.files| && t.files[i] == f;
    var j :| 0 <= j < |t.files| && t.files[j] == g;
  }

  lemma ContainedIsRight(t: TorrentFile, m: BlockMetadata, f: FileEntry)
    requires WellLaid(t) && t.InPiece(m) && m.blockLength > 0 && f in t.files && t.Contains(f, m)
    ensures WindowsRight(t, m)
  {
    WindowExact(t, m);
    assert IsExact(t, m, f);
    hide TorrentFile.FilesForBlock, WellLaid;
    forall g | g in t.files && Meets(t, m, g)
      ensures g == f
    {
      OnlyOneMeets(t, m, f, g);
    }
  }

  // ---------------------------------------------------------------- several files

  /** Without a file that holds the whole block, the claims of all files are collected. */
  lemma {:induction false} ScanCollects(t: TorrentFile, fs: seq<FileEntry>, m: BlockMetadata,
                                        acc: seq<(FileEntry, FileWindow)>, x: (FileEntry, FileWindow))
    requires forall f :: f in fs ==> !t.Contains(f, m)
    ensures x in t.Scan(fs, m, acc) <==> x in acc || (x.0 in fs && x in t.Claim(x.0, m))
  {
    hide TorrentFile.Claim;
    if fs != [] {
      ScanCollects(t, fs[1..], m, acc + t.Claim(fs[0], m), x);
      assert x in t.Claim(fs[0], m) ==> x.0 == fs[0];
      assert x.0 in fs <==> x.0 == fs[0] || x.0 in fs[1..];
    }
  }

  /** The file in which the block starts, and the one behind it: the block goes on there. */
  lemma SecondFile(t: TorrentFile, m: BlockMetadata) returns (g: FileEntry)
    requires WellLaid(t) && m.blockLength > 0 && InContent(t, m) && forall f :: f in t.files ==> !t.Contains(f, m)
    ensures g in t.files && t.StartOf(m) < g.offset < t.EndOf(m) && g.size > 0
  {
    var start := t.StartOf(m);
    assert InSomeFile(t, start);
    var f :| f in t.files && Has(f, start);
    assert f.End() < t.EndOf(m);
    assert InSomeFile(t, f.End());
    g :| g in t.files && Has(g, f.End());
    Behind(t, f, g);
  }

  /** A file that has the position right behind another one starts there. */
  lemma Behind(t: TorrentFile, f: FileEntry, g: FileEntry)
    requires WellLaid(t) && f in t.files && g in t.files && f.size > 0 && Has(g, f.End())
    ensures g.offset == f.End()
  {
    var i :| 0 <= i < |t.files| && t.files[i] == f;
    var j :| 0 <= j < |t.files| && t.files[j] == g;
  }

  /** What is claimed for a file that starts inside the block is never the part of the block in it. */
  lemma ClaimIsWrong(t: TorrentFile, m: BlockMetadata, g: FileEntry)
    requires t.StartOf(m) < g.offset < t.EndOf(m) && g.size > 0
    ensures Meets(t, m, g)
    ensures (g, FileWindow(Low(t, m, g) - g.offset, High(t, m, g) - Low(t, m, g))) !in t.Claim(g, m)
  {
  }

  lemma SpanningIsWrong(t: TorrentFile, m: BlockMetadata)
    requires WellLaid(t) && t.InPiece(m) && m.blockLength > 0 && InContent(t, m)
    requires forall f :: f in t.files ==> !t.Contains(f, m)
    ensures !WindowsRight(t, m)
  {
    var g := SecondFile(t, m);
    ClaimIsWrong(t, m, g);
    ScanCollects(t, t.files, m, [], (g, FileWindow(Low(t, m, g) - g.offset, High(t, m, g) - Low(t, m, g))));
    hide TorrentFile.Claim, TorrentFile.Scan, WellLaid;
  }

  /** A non-empty block inside the content of a new torrent gets the right windows, in whatever order the files are
      scanned, if and only if one file holds it all. */
  lemma WindowsRightExact(t: TorrentFile, sizes: seq<nat>, m: BlockMetadata)
    requires multiset(t.files) == multiset(Entries(t.id, sizes, 0, 0)) && t.EndOf(m) <= Total(sizes)
    requires t.InPiece(m) && m.blockLength > 0
    ensures WindowsRight(t, m) <==> exists f :: f in t.files && t.Contains(f, m)
  {
    hide WindowsRight;
    NewIsWellLaid(t, sizes);
    NewInContent(t, sizes, m);
    if f :| f in t.files && t.Contains(f, m) {
      ContainedIsRight(t, m, f);
    } else {
      SpanningIsWrong(t, m);
    }
  }

  /** Behind the end of the content the claimed window can look right, as the start of the block is taken for its
      length: a file of three bytes is claimed to hold bytes 2 and 3. */
  lemma PastTheEndLooksRight(id: TorrentId)
    ensures var f := FileEntry(FileId(id, 0), 0, 3);
            var t, m := TorrentFile(id, [[]], 4, [f]), BlockMetadata(0, 2, 2);
            !t.Contains(f, m) && t.FilesForBlock(m) == Some([(f, FileWindow(t.StartOf(m) - f.offset, m.blockLength))])
  {
    var f := FileEntry(FileId(id, 0), 0, 3);
    WindowPastTheEnd(TorrentFile(id, [[]], 4, [f]), BlockMetadata(0, 2, 2), f);
  }
}
