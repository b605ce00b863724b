/** The owned bit is set when a piece is assembled, before its hash is checked (src/peer/piece.rs,
    src/disk/manager.rs). */
module OwnedBits {
  import opened Collections
  import opened Messages
  import opened Blocks
  import opened PieceBuffers
  import opened PieceHandlers
  import opened Downloads
  import opened LostBlocks
  import Builder
  import Layout
  import DiskFiles
  import DiskManagers
  import Swarm

  const META := BlockMetadata(0, 0, 1)
  const EMPTY := Init(Random, [false], 1, 1)

  function Delivery(b: Byte): Block {
    Block(META, [b])
  }

  /** One peer connects and unchokes us, is asked for the one block, and answers. */
  function Story(b: Byte): seq<Event> {
    OPENING + [BlockResponse(PEER, Delivery(b)), Poll([0], [PEER])]
  }

  function Tracking(record: Peer): Handler {
    EMPTY.(peers := map[PEER := record])
  }

  const ASKED := Buffer(0, 1, 1, [], map[PEER := META], map[], [])

  function Got(b: Byte): Buffer {
    Buffer(0, 1, 1, [], map[], map[0 := Delivery(b)], [PEER])
  }

  /** The states of the story. */
  function States(b: Byte): seq<Handler> {
    var h := Tracking(UNCHOKED);
    [EMPTY, Tracking(FRESH_PEER), Tracking(CHOKED), h, h.(buffer := Some(ASKED)), h.(buffer := Some(Got(b))),
     h.(bitfield := [true])]
  }

  lemma OneBlock()
    ensures Partition(0, 1) == [META]
  {
    assert WholeBlocks(0, 0) == [];
    assert [] + [META] == [META];
  }

  lemma Opens(b: Byte)
    ensures forall i :: 0 <= i < 4 ==> Step(States(b)[i], Story(b)[i]).0 == States(b)[i + 1]
  {
    OneBlock();
    hide Partition;
    var h := Tracking(UNCHOKED);
    assert h.AllCanSeed(0) && !AllSet([false]);
    assert h.NextRandomPiece([0], [PEER]) == Some(New(0, 1, [PEER]));
    assert [META][..0] == [] && [PEER][..0] == [];
    assert New(0, 1, [PEER]).Next().0 == ASKED;
    assert Step(EMPTY, OPENING[0]).0 == Tracking(FRESH_PEER);
    assert Step(Tracking(FRESH_PEER), OPENING[1]).0 == Tracking(CHOKED);
    assert Step(Tracking(CHOKED), OPENING[2]).0 == h;
    assert Step(h, OPENING[3]).0 == h.(buffer := Some(ASKED));
  }

  lemma Answers(b: Byte)
    ensures Step(States(b)[4], Story(b)[4]).0 == States(b)[5]
  {
    assert ASKED.AddBlock(PEER, Delivery(b)).0 == Got(b) by {
      assert map[PEER := META] - {PEER} == map[];
      assert [] + [PEER] == [PEER];
    }
  }

  lemma Assembles(b: Byte)
    ensures Got(b).Finalize() == Some(Delivery(b))
  {
    var m := map[0 := Delivery(b)];
    assert 0 in m && m != map[];
    assert FirstKey(m) == 0;
    assert m - {0} == map[];
    assert [b] + [] == [b];
    assert Assemble(map[]) == Some([]);
    assert Assemble(m) == Some([b]);
  }

  lemma Finishes(b: Byte)
    ensures Step(States(b)[5], Story(b)[5]) == (States(b)[6], Polled(PieceFinished(Some(Delivery(b)))))
  {
    Assembles(b);
    hide Buffer.Finalize;
    assert |Got(b).blocks| == 1;
    assert [false][0 := true] == [true];
  }

  lemma StoryIsAdmissible(b: Byte)
    ensures forall i :: 0 <= i < 6 ==> Possible(States(b)[i], Story(b)[i]) && Admissible(States(b)[i], Story(b)[i])
  {
    var h := Tracking(UNCHOKED);
    assert ValidOrders(h, [0], [PEER]);
    assert ValidOrders(States(b)[5], [0], [PEER]);
  }

  /** Whatever byte the peer sends, an admissible run of a new handler ends with the piece reported and its owned bit
      set. */
  lemma BitIsSet(b: Byte)
    ensures AdmissibleRun(EMPTY, Story(b)) && Run(EMPTY, Story(b)).0.bitfield == [true]
    ensures Run(EMPTY, Story(b)).1[5] == Polled(PieceFinished(Some(Delivery(b))))
  {
    Opens(b);
    Answers(b);
    Finishes(b);
    StoryIsAdmissible(b);
    hide Step, Possible, Admissible;
    RunSteps(States(b), Story(b));
  }

  /** So a set bit says nothing about the hash: if the peer sends another byte than the content has, and the hash does
      not collide, the piece whose bit is set does not pass the check. */
  lemma SetBitIsNotVerified(b: Byte, c: Byte, d: DiskManagers.Disk, id: DiskFiles.TorrentId)
    requires b != c && Swarm.Knows(d, id, Layout.Torrent([c], 1)) && Swarm.CollisionFree(d.sha, [c])
    ensures Run(EMPTY, Story(b)).0.bitfield == [true] && !d.IsGoodPiece(id, Delivery(b))
  {
    hide Run, AdmissibleRun;
    BitIsSet(b);
    var t := Layout.Torrent([c], 1);
    assert Builder.Chunks(t.content, 1) == [[c]];
    hide Swarm.Knows, Swarm.CollisionFree, DiskManagers.Disk.IsGoodPiece;
    Swarm.HashCheckExact(t, d, id, Delivery(b));
  }
}
