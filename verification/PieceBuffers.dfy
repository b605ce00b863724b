/** The download of one piece: `PieceBuffer` of src/peer/piece.rs. */
module PieceBuffers {
  import opened Collections
  import opened Messages
  import opened Blocks
  import opened Bags

  type PeerId = nat

  datatype NextBlock = NextBlock(peer: PeerId, block: BlockMetadata)

  datatype AddResult =
    | Accepted(metadata: BlockMetadata)
    | InvalidBlock(expected: BlockMetadata)
    | NotRequested

  /** The fields of a buffer as a value. */
  datatype Buffer = Buffer(
    pieceIndex: nat,
    pieceLength: nat,
    totalBlocks: nat,
    missing: seq<BlockMetadata>,
    pending: map<PeerId, BlockMetadata>,
    blocks: map<nat, Block>,
    peers: seq<PeerId>)
  {
    predicate IsFull() {
      |blocks| == totalBlocks
    }

    /** The buffer considers the peer, as idle or as busy. */
    predicate Knows(p: PeerId) {
      p in peers || p in pending
    }

    function Next(): (Buffer, Option<NextBlock>) {
      if peers == [] || missing == [] then (this, None)
      else
        var peer, block := peers[|peers| - 1], missing[|missing| - 1];
        (this.(peers := peers[..|peers| - 1],
               missing := missing[..|missing| - 1],
               pending := pending[peer := block]),
         Some(NextBlock(peer, block)))
    }

    function RemovePeer(p: PeerId): Buffer {
      var pos := Position(peers, p);
      if pos < |peers| then this.(peers := RemoveAt(peers, pos))
      else if p in pending then this.(missing := missing + [pending[p]], pending := pending - {p})
      else this
    }

    function AddBlock(p: PeerId, block: Block): (Buffer, AddResult) {
      if p !in pending then (this, NotRequested)
      else
        var expected := pending[p];
        if block.metadata == expected then
          (this.(pending := pending - {p},
                 blocks := blocks[block.metadata.blockOffset := block],
                 peers := peers + [p]),
           Accepted(expected))
        else
          (this.(pending := pending - {p}, missing := missing + [expected], peers := peers + [p]),
           InvalidBlock(expected))
    }

    /** `None` is the error `BadPiece`. */
    function Finalize(): Option<Block> {
      var data := Assemble(blocks);
      if data.None? then None
      else Some(Block(BlockMetadata(pieceIndex, 0, pieceLength), data.value))
    }
  }

  function New(pieceIndex: nat, pieceLength: nat, peers: seq<PeerId>): Buffer {
    var missing := Partition(pieceIndex, pieceLength);
    Buffer(pieceIndex, pieceLength, |missing|, missing, map[], map[], peers)
  }

  function Position<T(==)>(s: seq<T>, x: T): (i: nat)
    ensures i <= |s| && x !in s[..i]
    ensures i < |s| ==> s[i] == x
    ensures i < |s| <==> x in s
  {
    if s == [] || s[0] == x then 0 else 1 + Position(s[1..], x)
  }

  // ---------------------------------------------------------------- the tree map in key order

  /** `k` is the first key in the order of the tree map. */
  predicate IsFirstKey(m: map<nat, Block>, k: nat) {
    k in m && forall j :: j in m ==> k <= j
  }

  lemma {:induction false} FirstKeyExists(m: map<nat, Block>)
    requires m != map[]
    ensures exists k :: IsFirstKey(m, k)
    decreases m.Keys
  {
    var x :| x in m;
    var rest := m - {x};
    assert forall j :: j in m ==> j == x || j in rest;
    if rest == map[] {
      assert IsFirstKey(m, x);
    } else {
      FirstKeyExists(rest);
      var y :| IsFirstKey(rest, y);
      assert IsFirstKey(m, if y < x then y else x);
    }
  }

  function FirstKey(m: map<nat, Block>): (k: nat)
    requires m != map[]
    ensures IsFirstKey(m, k)
  {
    FirstKeyExists(m);
    var k :| IsFirstKey(m, k);
    k
  }

  /** The blocks in key order, glued together, unless one does not have the length it claims. */
  function Assemble(m: map<nat, Block>): Option<Bytes>
    decreases m.Keys
  {
    if m == map[] then Some([])
    else
      var k := FirstKey(m);
      if !m[k].IsCorrectLen() then None
      else
        var rest := Assemble(m - {k});
        if rest.None? then None else Some(m[k].data + rest.value)
  }

  // ---------------------------------------------------------------- the buffer

  class PieceBuffer {
    const pieceIndex: nat
    const pieceLength: nat
    const totalBlocks: nat
    var missingBlocks: seq<BlockMetadata>
    var pendingBlocks: map<PeerId, BlockMetadata>
    var blocks: map<nat, Block>
    var peers: seq<PeerId>

    ghost function Model(): Buffer
      reads this
    {
      Buffer(pieceIndex, pieceLength, totalBlocks, missingBlocks, pendingBlocks, blocks, peers)
    }

    constructor (pieceIndex: nat, pieceLength: nat, peers: seq<PeerId>)
      ensures Model() == New(pieceIndex, pieceLength, peers)
    {
      var numFullBlocks := pieceLength / BLOCK_SIZE;
      var lastBlockSize := pieceLength % BLOCK_SIZE;
      var missing: seq<BlockMetadata> := [];
      for index := 0 to numFullBlocks
        invariant missing == WholeBlocks(pieceIndex, index)
      {
        missing := missing + [BlockMetadata(pieceIndex, index * BLOCK_SIZE, BLOCK_SIZE)];
      }
      if lastBlockSize > 0 {
        missing := missing + [BlockMetadata(pieceIndex, pieceLength - lastBlockSize, lastBlockSize)];
      }
      assert missing == Partition(pieceIndex, pieceLength);
      this.pieceIndex, this.pieceLength, this.totalBlocks := pieceIndex, pieceLength, |missing|;
      missingBlocks, pendingBlocks, blocks, this.peers := missing, map[], map[], peers;
    }

    method Next() returns (next: Option<NextBlock>)
      modifies this
      ensures (Model(), next) == old(Model()).Next()
    {
      if peers != [] {
        var peer := peers[|peers| - 1];
        peers := peers[..|peers| - 1];
        if missingBlocks != [] {
          var block := missingBlocks[|missingBlocks| - 1];
          missingBlocks := missingBlocks[..|missingBlocks| - 1];
          pendingBlocks := pendingBlocks[peer := block];
          return Some(NextBlock(peer, block));
        }
        peers := peers + [peer];
        assert peers == old(peers);
      }
      return None;
    }

    method RemovePeer(p: PeerId)
      modifies this
      ensures Model() == old(Model()).RemovePeer(p)
    {
      var pos := Position(peers, p);
      if pos < |peers| {
        peers := RemoveAt(peers, pos);
        return;
      }
      if p in pendingBlocks {
        var block := pendingBlocks[p];
        pendingBlocks := pendingBlocks - {p};
        missingBlocks := missingBlocks + [block];
      }
    }

    method AddBlock(p: PeerId, block: Block) returns (r: AddResult)
      modifies this
      ensures (Model(), r) == old(Model()).AddBlock(p, block)
    {
      if p !in pendingBlocks {
        return NotRequested;
      }
      var expected := pendingBlocks[p];
      pendingBlocks := pendingBlocks - {p};
      if block.metadata == expected {
        blocks := blocks[block.metadata.blockOffset := block];
        peers := peers + [p];
        r := Accepted(expected);
      } else {
        missingBlocks := missingBlocks + [expected];
        peers := peers + [p];
        r := InvalidBlock(expected);
      }
    }

    method TryFinalizePiece() returns (r: Option<Block>)
      ensures r == Model().Finalize()
    {
      var buffer: Bytes := [];
      var left := blocks;
      assert Assemble(blocks).Some? ==> [] + Assemble(blocks).value == Assemble(blocks).value;
      while left != map[]
        invariant Assemble(blocks) == match Assemble(left) case None => None case Some(d) => Some(buffer + d)
        decreases left.Keys
      {
        var k := FirstKey(left);
        var block := left[k];
        if !block.IsCorrectLen() {
          return None;
        }
        ghost var rest := Assemble(left - {k});
        assert rest.Some? ==> buffer + (block.data + rest.value) == (buffer + block.data) + rest.value;
        buffer := buffer + block.data;
        left := left - {k};
      }
      assert buffer + [] == buffer;
      return Some(Block(BlockMetadata(pieceIndex, 0, pieceLength), buffer));
    }
  }

  // ---------------------------------------------------------------- conservation

  ghost function Metas(blocks: map<nat, Block>): map<nat, BlockMetadata> {
    map o | o in blocks :: blocks[o].metadata
  }

  /** Missing, requested and received blocks are, with multiplicities, the partition of the piece; a
      received block is filed under its own offset. */
  ghost predicate Conserved(b: Buffer) {
    && b.totalBlocks == |Partition(b.pieceIndex, b.pieceLength)|
    && (forall o :: o in b.blocks ==> b.blocks[o].metadata.blockOffset == o)
    && multiset(b.missing) + Bag(b.pending) + Bag(Metas(b.blocks))
       == multiset(Partition(b.pieceIndex, b.pieceLength))
  }

  /** Idle peers are listed once, and none of them has a request outstanding. */
  ghost predicate Disciplined(b: Buffer) {
    NoDuplicates(b.peers) && forall p :: p in b.peers ==> p !in b.pending
  }

  lemma NewConserves(pieceIndex: nat, pieceLength: nat, peers: seq<PeerId>)
    ensures Conserved(New(pieceIndex, pieceLength, peers))
  {
    var b := New(pieceIndex, pieceLength, peers);
    assert Metas(b.blocks) == map[];
  }

  lemma NextConserves(b: Buffer)
    requires Conserved(b) && Disciplined(b)
    ensures Conserved(b.Next().0) && Disciplined(b.Next().0)
  {
    hide Bag, Partition, Metas, NoDuplicates;
    if b.peers != [] && b.missing != [] {
      var peer, block := b.peers[|b.peers| - 1], b.missing[|b.missing| - 1];
      assert b.peers == b.peers[..|b.peers| - 1] + [peer];
      PopIsNew(b.peers[..|b.peers| - 1], peer);
      HandOut(b.missing, block, b.pending, peer, Bag(Metas(b.blocks)));
    }
  }

  lemma PopIsNew(peers: seq<PeerId>, peer: PeerId)
    requires NoDuplicates(peers + [peer])
    ensures peer !in peers && NoDuplicates(peers)
  {
    var s := peers + [peer];
    forall i | 0 <= i < |peers|
      ensures s[i] == peers[i] && peers[i] != peer
    {
      assert s[i] != s[|peers|];
    }
    assert forall i :: 0 <= i < |peers| ==> s[i] == peers[i];
  }

  lemma PushIsNew(peers: seq<PeerId>, peer: PeerId)
    requires NoDuplicates(peers) && peer !in peers
    ensures NoDuplicates(peers + [peer])
  {
  }

  /** Moving the last missing block to the requested ones changes no sum. */
  lemma HandOut(missing: seq<BlockMetadata>, block: BlockMetadata, pending: map<PeerId, BlockMetadata>, peer: PeerId,
                received: multiset<BlockMetadata>)
    requires missing != [] && missing[|missing| - 1] == block && peer !in pending
    ensures multiset(missing[..|missing| - 1]) + Bag(pending[peer := block]) + received
         == multiset(missing) + Bag(pending) + received
  {
    BagInsert(pending, peer, block);
    assert missing == missing[..|missing| - 1] + [block];
    hide Bag;
  }

  lemma RemovePeerConserves(b: Buffer, p: PeerId)
    requires Conserved(b) && Disciplined(b)
    ensures Conserved(b.RemovePeer(p)) && Disciplined(b.RemovePeer(p))
    ensures !b.RemovePeer(p).Knows(p)
    ensures forall q :: q != p ==> (b.RemovePeer(p).Knows(q) <==> b.Knows(q))
  {
    hide Bag, Partition, Metas, NoDuplicates, RemoveAt;
    var pos := Position(b.peers, p);
    if pos < |b.peers| {
      RemoveAtFacts(b.peers, pos);
    } else if p in b.pending {
      TakeBack(b.missing, b.pending, p, Bag(Metas(b.blocks)));
    }
  }

  /** Moving a requested block back to the missing ones changes no sum. */
  lemma TakeBack(missing: seq<BlockMetadata>, pending: map<PeerId, BlockMetadata>, p: PeerId,
                 received: multiset<BlockMetadata>)
    requires p in pending
    ensures multiset(missing + [pending[p]]) + Bag(pending - {p}) + received
         == multiset(missing) + Bag(pending) + received
  {
    BagRemove(pending, p);
    hide Bag;
  }

  /** Moving a requested block to the received ones changes no sum. */
  lemma FileAway(missing: multiset<BlockMetadata>, pending: map<PeerId, BlockMetadata>, p: PeerId,
                 received: map<nat, BlockMetadata>, o: nat)
    requires p in pending && o !in received
    ensures missing + Bag(pending - {p}) + Bag(received[o := pending[p]]) == missing + Bag(pending) + Bag(received)
  {
    hide Bag;
    BagRemove(pending, p);
    BagInsert(received, o, pending[p]);
  }

  /** A block that is still out cannot be among the received ones. */
  lemma PendingNotReceived(b: Buffer, p: PeerId)
    requires Conserved(b) && p in b.pending
    ensures b.pending[p] in Partition(b.pieceIndex, b.pieceLength)
    ensures b.pending[p].blockOffset !in b.blocks
  {
    var all := Partition(b.pieceIndex, b.pieceLength);
    var e := b.pending[p];
    BagRemove(b.pending, p);
    assert e in multiset(all);
    if e.blockOffset in b.blocks {
      var o := e.blockOffset;
      BagRemove(Metas(b.blocks), o);
      var d := b.blocks[o].metadata;
      assert d in multiset(all);
      PartitionDistinct(b.pieceIndex, b.pieceLength);
      assert d == e;
      assert multiset(all)[e] >= 2;
      OnceOnly(all, e);
    }
  }

  lemma {:induction false} OnceOnly<T>(s: seq<T>, x: T)
    requires NoDuplicates(s)
    ensures multiset(s)[x] <= 1
  {
    if s != [] {
      var n := |s| - 1;
      OnceOnly(s[..n], x);
      assert s == s[..n] + [s[n]];
      if s[n] == x {
        assert x !in multiset(s[..n]);
      }
    }
  }

  lemma AddBlockConserves(b: Buffer, p: PeerId, block: Block)
    requires Conserved(b) && Disciplined(b)
    ensures Conserved(b.AddBlock(p, block).0) && Disciplined(b.AddBlock(p, block).0)
    ensures forall q :: b.AddBlock(p, block).0.Knows(q) <==> b.Knows(q)
  {
    hide Bag, Partition, NoDuplicates;
    if p in b.pending {
      var o := block.metadata.blockOffset;
      PushIsNew(b.peers, p);
      if block.metadata == b.pending[p] {
        PendingNotReceived(b, p);
        FileAway(multiset(b.missing), b.pending, p, Metas(b.blocks), o);
        assert Metas(b.blocks[o := block]) == Metas(b.blocks)[o := block.metadata];
      } else {
        TakeBack(b.missing, b.pending, p, Bag(Metas(b.blocks)));
      }
    }
  }

  /** A received block is never replaced while the piece is being downloaded. */
  lemma AddBlockKeepsReceived(b: Buffer, p: PeerId, block: Block)
    requires Conserved(b)
    ensures forall o :: o in b.blocks ==>
              o in b.AddBlock(p, block).0.blocks && b.AddBlock(p, block).0.blocks[o] == b.blocks[o]
  {
    if p in b.pending {
      PendingNotReceived(b, p);
    }
  }

  /** The counter test of `is_full_piece` means what it should: nothing is missing or outstanding. */
  lemma FullMeansReceived(b: Buffer)
    requires Conserved(b)
    ensures |b.missing| + |b.pending| + |b.blocks| == b.totalBlocks
    ensures b.IsFull() <==> b.missing == [] && b.pending == map[]
  {
    BagSize(b.pending);
    BagSize(Metas(b.blocks));
    assert Metas(b.blocks).Keys == b.blocks.Keys;
    assert |multiset(b.missing) + Bag(b.pending) + Bag(Metas(b.blocks))| == |b.missing| + |b.pending| + |b.blocks|;
  }

  // ---------------------------------------------------------------- reassembly

  /** Every block of `s` from `i` on has been received, and nothing else is in `m`. */
  ghost predicate Received(m: map<nat, Block>, s: seq<BlockMetadata>, i: nat) {
    && (forall j :: i <= j < |s| ==> s[j].blockOffset in m && m[s[j].blockOffset].metadata == s[j])
    && (forall o :: o in m ==> exists j :: i <= j < |s| && s[j].blockOffset == o)
  }

  /** Every block of `s` is in `m`. */
  ghost predicate HasAll(m: map<nat, Block>, s: seq<BlockMetadata>) {
    forall b :: b in s ==> b.blockOffset in m && m[b.blockOffset].metadata == b
  }

  lemma FullIsReceived(b: Buffer)
    requires Conserved(b) && b.IsFull()
    ensures Received(b.blocks, Partition(b.pieceIndex, b.pieceLength), 0)
    ensures HasAll(b.blocks, Partition(b.pieceIndex, b.pieceLength))
  {
    var all := Partition(b.pieceIndex, b.pieceLength);
    FullMeansReceived(b);
    var bag := Bag(Metas(b.blocks));
    assert bag == multiset(all);
    forall j | 0 <= j < |all|
      ensures all[j].blockOffset in b.blocks && b.blocks[all[j].blockOffset].metadata == all[j]
    {
      assert all[j] in bag;
      var o := BagMember(Metas(b.blocks), all[j]);
    }
    forall o | o in b.blocks
      ensures exists j :: 0 <= j < |all| && all[j].blockOffset == o
    {
      BagRemove(Metas(b.blocks), o);
      assert b.blocks[o].metadata in multiset(all);
    }
  }

  /** The received blocks from `i` on, in position order. */
  ghost function Glue(m: map<nat, Block>, s: seq<BlockMetadata>, i: nat): Bytes
    requires HasAll(m, s)
    decreases |s| - i
  {
    if i >= |s| then [] else m[s[i].blockOffset].data + Glue(m, s, i + 1)
  }

  /** The first key is the next position. */
  lemma FirstIsNext(m: map<nat, Block>, s: seq<BlockMetadata>, total: nat, i: nat)
    requires EndToEnd(s, total) && i <= |s| && Received(m, s, i)
    ensures if i == |s| then m == map[] && AllCorrect(m)
            else m != map[] && FirstKey(m) == s[i].blockOffset && Received(m - {s[i].blockOffset}, s, i + 1)
  {
    if i < |s| {
      var k := s[i].blockOffset;
      forall j | i < j < |s|
        ensures k < s[j].blockOffset
      {
        EndToEndOrder(s, total, i, j);
      }
    }
  }

  ghost predicate AllCorrect(m: map<nat, Block>) {
    forall o :: o in m ==> m[o].IsCorrectLen()
  }

  lemma AllCorrectSplit(m: map<nat, Block>, k: nat)
    requires k in m
    ensures AllCorrect(m) <==> m[k].IsCorrectLen() && AllCorrect(m - {k})
  {
    assert forall o :: o in m ==> o == k || o in m - {k};
  }

  /** Gluing in key order is gluing in position order. */
  lemma {:induction false} AssembleIsGlue(m: map<nat, Block>, all: map<nat, Block>, s: seq<BlockMetadata>,
                                          total: nat, i: nat)
    requires EndToEnd(s, total) && i <= |s| && Received(m, s, i) && HasAll(all, s)
    requires forall o :: o in m ==> o in all && all[o] == m[o]
    ensures Assemble(m).Some? <==> AllCorrect(m)
    ensures Assemble(m).Some? ==> Assemble(m).value == Glue(all, s, i)
    decreases |s| - i
  {
    hide Received, EndToEnd, HasAll, AllCorrect;
    FirstIsNext(m, s, total, i);
    if i < |s| {
      var k := s[i].blockOffset;
      AssembleIsGlue(m - {k}, all, s, total, i + 1);
      AllCorrectSplit(m, k);
    }
  }

  /** Gluing from `i` on gives all the bytes from the start of block `i`. */
  lemma {:induction false} GlueLength(m: map<nat, Block>, s: seq<BlockMetadata>, total: nat, i: nat)
    requires EndToEnd(s, total) && i < |s| && HasAll(m, s) && AllCorrect(m)
    ensures |Glue(m, s, i)| == total - s[i].blockOffset
    decreases |s| - i
  {
    assert s[i] in s;
    if i + 1 < |s| {
      GlueLength(m, s, total, i + 1);
    } else {
      assert Glue(m, s, i + 1) == [];
    }
  }

  /** ... and block `j` lands at its distance from there. */
  lemma {:induction false} GlueAtPlace(m: map<nat, Block>, s: seq<BlockMetadata>, total: nat, i: nat, j: nat)
    requires EndToEnd(s, total) && i <= j < |s| && HasAll(m, s) && AllCorrect(m)
    ensures s[i].blockOffset <= s[j].blockOffset
    ensures s[j] in s && |m[s[j].blockOffset].data| == s[j].blockLength
    ensures SliceIs(Glue(m, s, i), s[j].blockOffset - s[i].blockOffset, m[s[j].blockOffset].data)
    decreases j - i
  {
    var head, rest := m[s[i].blockOffset].data, Glue(m, s, i + 1);
    assert s[i] in s && |head| == s[i].blockLength;
    if i == j {
      assert (head + rest)[0..|head|] == head;
    } else {
      GlueAtPlace(m, s, total, i + 1, j);
      SliceAfter(head, rest, s[j].blockOffset - s[i + 1].blockOffset, m[s[j].blockOffset].data);
    }
  }

  lemma SliceAfter(head: Bytes, rest: Bytes, from: int, part: Bytes)
    requires SliceIs(rest, from, part)
    ensures SliceIs(head + rest, |head| + from, part)
  {
    assert (head + rest)[|head| + from..|head| + from + |part|] == rest[from..from + |part|];
  }

  lemma PlacedAt(m: map<nat, Block>, s: seq<BlockMetadata>, total: nat, b: BlockMetadata)
    requires EndToEnd(s, total) && HasAll(m, s) && AllCorrect(m) && b in s
    ensures SliceIs(Glue(m, s, 0), b.blockOffset, m[b.blockOffset].data)
    ensures |m[b.blockOffset].data| == b.blockLength
  {
    var j :| 0 <= j < |s| && s[j] == b;
    GlueAtPlace(m, s, total, 0, j);
  }

  /** Reassembly: a full buffer finalises if and only if every received block has the length it was
      asked for; the piece then has exactly its length, and each block sits at its offset. */
  lemma Reassembly(b: Buffer)
    requires Conserved(b) && b.IsFull()
    ensures HasAll(b.blocks, Partition(b.pieceIndex, b.pieceLength))
    ensures b.Finalize().Some? <==> AllCorrect(b.blocks)
    ensures b.Finalize().Some? ==>
              var piece := b.Finalize().value;
              && piece.metadata == BlockMetadata(b.pieceIndex, 0, b.pieceLength)
              && piece.IsCorrectLen()
              && forall m :: m in Partition(b.pieceIndex, b.pieceLength) ==>
                   SliceIs(piece.data, m.blockOffset, b.blocks[m.blockOffset].data)
                   && |b.blocks[m.blockOffset].data| == m.blockLength
  {
    var s := Partition(b.pieceIndex, b.pieceLength);
    PartitionEndToEnd(b.pieceIndex, b.pieceLength);
    FullIsReceived(b);
    assert s != [] ==> s[0].blockOffset == 0;
    hide Conserved, Partition, Received, Assemble, EndToEnd, SliceIs;
    AssembleIsGlue(b.blocks, b.blocks, s, b.pieceLength, 0);
    if b.Finalize().Some? {
      var data := b.Finalize().value.data;
      assert data == Glue(b.blocks, s, 0);
      if s != [] {
        GlueLength(b.blocks, s, b.pieceLength, 0);
      }
      forall m | m in s
        ensures SliceIs(data, m.blockOffset, b.blocks[m.blockOffset].data)
        ensures |b.blocks[m.blockOffset].data| == m.blockLength
      {
        PlacedAt(b.blocks, s, b.pieceLength, m);
      }
    }
  }
}
