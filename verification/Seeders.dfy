/** One peer that has the missing pieces and answers is enough: the download then comes to its end
    (src/peer/piece.rs). */
module Seeders {
  import opened Collections
  import opened Messages
  import opened Blocks
  import opened PieceBuffers
  import opened PieceHandlers
  import opened Downloads
  import opened Selections

  // ---------------------------------------------------------------- the missing pieces

  /** The indices of the missing pieces from `from` on. */
  function MissingFrom(bits: seq<bool>, from: nat): (order: seq<nat>)
    requires from <= |bits|
    decreases |bits| - from
  {
    if from == |bits| then []
    else if bits[from] then MissingFrom(bits, from + 1)
    else [from] + MissingFrom(bits, from + 1)
  }

  lemma {:induction false} MissingFromExact(bits: seq<bool>, from: nat)
    requires from <= |bits|
    ensures NoDuplicates(MissingFrom(bits, from))
    ensures forall i: nat :: i in MissingFrom(bits, from) <==> from <= i < |bits| && !bits[i]
    decreases |bits| - from
  {
    if from < |bits| {
      MissingFromExact(bits, from + 1);
      if !bits[from] {
        var rest := MissingFrom(bits, from + 1);
        assert from !in rest;
        assert forall k :: 0 < k < |rest| + 1 ==> ([from] + rest)[k] == rest[k - 1] && rest[k - 1] in rest;
      }
    }
  }

  // ---------------------------------------------------------------- one peer

  /** The peer is the only one, and offers every missing piece. */
  ghost predicate OnlySeeder(h: Handler, p: PeerId) {
    h.peers.Keys == {p} && forall i: nat :: IsMissing(h, i) ==> Offers(h.peers[p], i)
  }

  /** The buffer considers the peer, and what it has received so far has the right length. */
  ghost predicate Working(h: Handler, p: PeerId) {
    && Inv(h) && OnlySeeder(h, p) && h.buffer.Some? && AllCorrect(h.buffer.value.blocks)
    && h.buffer.value.Knows(p)
  }

  function PollNow(h: Handler, p: PeerId): Event {
    Poll(MissingFrom(h.bitfield, 0), [p])
  }

  lemma PollNowIsValid(h: Handler, p: PeerId)
    requires h.peers.Keys == {p}
    ensures ValidOrders(h, MissingFrom(h.bitfield, 0), [p])
  {
    MissingFromExact(h.bitfield, 0);
    forall q
      ensures q in [p] <==> q in h.peers
    {
      assert q in h.peers.Keys <==> q == p;
    }
  }

  /** The peer answers requests with blocks of the length asked for. */
  ghost predicate Answers(send: BlockMetadata -> Bytes) {
    forall m :: |send(m)| == m.blockLength
  }

  /** Every response of the run is what the peer sends for that block. */
  ghost predicate From(es: seq<Event>, p: PeerId, send: BlockMetadata -> Bytes) {
    forall e :: e in es && e.BlockResponse? ==> e.peer == p && e.block.data == send(e.block.metadata)
  }

  predicate NoAcknowledge(es: seq<Event>) {
    forall e :: e in es ==> !e.Acknowledge?
  }

  /** What a state looks like in which the peer is considered. */
  lemma BusyOrIdle(h: Handler, p: PeerId)
    requires Working(h, p)
    ensures var b := h.buffer.value;
            if p in b.pending then b.pending.Keys == {p} && b.peers == []
            else b.pending == map[] && b.peers == [p]
  {
    var b := h.buffer.value;
    hide Conserved, OnlySeeder, AllCorrect;
    forall q | b.Knows(q)
      ensures q == p
    {
      TheOnlyOne(h, p, q);
    }
    assert forall q :: q in b.pending ==> b.Knows(q);
    assert forall q :: q in b.peers ==> b.Knows(q);
    if p in b.pending {
      assert forall q :: q in b.pending.Keys <==> q == p;
      assert forall q :: q !in b.peers;
      NoElement(b.peers);
    } else {
      OneElement(b.peers, p);
      assert forall q :: q !in b.pending;
    }
  }

  lemma NoElement<T>(s: seq<T>)
    requires NoDuplicates(s) && forall x :: x !in s
    ensures s == []
  {
    NoDuplicatesCardinality(s);
    assert ToSet(s) == {};
  }

  lemma TheOnlyOne(h: Handler, p: PeerId, q: PeerId)
    requires OnlySeeder(h, p) && q in h.peers
    ensures q == p
  {
    assert q in h.peers.Keys;
  }

  lemma OneElement<T>(s: seq<T>, x: T)
    requires x in s && NoDuplicates(s) && forall y :: y in s ==> y == x
    ensures s == [x]
  {
    NoDuplicatesCardinality(s);
    assert ToSet(s) == {x};
  }

  /** The peer answers its outstanding request. */
  lemma AnswerStep(h: Handler, p: PeerId, send: BlockMetadata -> Bytes)
    requires Working(h, p) && Answers(send) && p in h.buffer.value.pending
    ensures var m := h.buffer.value.pending[p];
            var h' := h.AddBlock(p, Block(m, send(m))).0;
            && Working(h', p) && h'.buffer.value.missing == h.buffer.value.missing && p !in h'.buffer.value.pending
            && h' == h.(buffer := h'.buffer) && h'.buffer.value.pieceIndex == h.buffer.value.pieceIndex
  {
    var b := h.buffer.value;
    var m := b.pending[p];
    BlockKeeps(h, p, Block(m, send(m)));
    SendsLength(send, m);
    hide Inv, AllCorrect, Answers, OnlySeeder;
    OneMoreCorrect(b.blocks, Block(m, send(m)));
    SameSeeder(h, h.AddBlock(p, Block(m, send(m))).0, p);
  }

  lemma SameSeeder(h: Handler, h': Handler, p: PeerId)
    requires OnlySeeder(h, p) && h' == h.(buffer := h'.buffer)
    ensures OnlySeeder(h', p)
  {
    hide Offers;
    assert forall i: nat :: IsMissing(h', i) <==> IsMissing(h, i);
  }

  lemma SendsLength(send: BlockMetadata -> Bytes, m: BlockMetadata)
    requires Answers(send)
    ensures |send(m)| == m.blockLength
  {
  }

  lemma OneMoreCorrect(blocks: map<nat, Block>, block: Block)
    requires AllCorrect(blocks) && block.IsCorrectLen()
    ensures AllCorrect(blocks[block.metadata.blockOffset := block])
  {
  }

  /** The peer is idle and gets the next request. */
  lemma RequestStep(h: Handler, p: PeerId)
    requires Working(h, p) && p !in h.buffer.value.pending && h.buffer.value.missing != []
    ensures var h' := Step(h, PollNow(h, p)).0;
            && Working(h', p) && |h'.buffer.value.missing| < |h.buffer.value.missing| && p in h'.buffer.value.pending
            && h' == h.(buffer := h'.buffer) && h'.buffer.value.pieceIndex == h.buffer.value.pieceIndex
    ensures !IsPiece(Step(h, PollNow(h, p)).1)
  {
    var b := h.buffer.value;
    BusyOrIdle(h, p);
    PollNowIsValid(h, p);
    FullMeansReceived(b);
    PollKeeps(h, MissingFrom(h.bitfield, 0), [p]);
    NextKnows(b);
    hide Conserved, Disciplined, Unchoked, MissingFrom, ValidOrders, AllCorrect, Inv;
    assert b.Next().0.blocks == b.blocks;
  }

  /** Nothing is missing or outstanding: the piece is there. */
  lemma FinishStep(h: Handler, p: PeerId)
    requires Working(h, p) && p !in h.buffer.value.pending && h.buffer.value.missing == []
    ensures var (h', out) := Step(h, PollNow(h, p));
            && h.buffer.value.pieceIndex < |h.bitfield| && IsPiece(out)
            && h' == h.(buffer := None, bitfield := h.bitfield[h.buffer.value.pieceIndex := true])
  {
    BusyOrIdle(h, p);
    FullMeansReceived(h.buffer.value);
    Reassembly(h.buffer.value);
    hide Conserved, Disciplined, Unchoked, MissingFrom, Buffer.Finalize;
  }

  // ---------------------------------------------------------------- one piece

  /** A run in which only the handler and the peer act, without a disk. */
  ghost predicate Dialogue(h: Handler, es: seq<Event>, p: PeerId, send: BlockMetadata -> Bytes) {
    AdmissibleRun(h, es) && From(es, p, send) && NoAcknowledge(es)
  }

  /** One event, then a run. */
  lemma Prepend(h: Handler, e: Event, es: seq<Event>, p: PeerId, send: BlockMetadata -> Bytes)
    requires Possible(h, e) && Admissible(h, e) && Dialogue(Step(h, e).0, es, p, send)
    requires !e.Acknowledge? && (e.BlockResponse? ==> e.peer == p && e.block.data == send(e.block.metadata))
    ensures Dialogue(h, [e] + es, p, send)
    ensures Run(h, [e] + es) == (Run(Step(h, e).0, es).0, [Step(h, e).1] + Run(Step(h, e).0, es).1)
  {
    hide Step, Possible, Admissible;
    assert ([e] + es)[1..] == es;
    assert forall x :: x in [e] + es <==> x == e || x in es;
  }

  /** One run, then another. */
  lemma Join(h: Handler, a: seq<Event>, b: seq<Event>, p: PeerId, send: BlockMetadata -> Bytes)
    requires Dialogue(h, a, p, send) && Dialogue(Run(h, a).0, b, p, send)
    ensures Dialogue(h, a + b, p, send)
    ensures Run(h, a + b) == (Run(Run(h, a).0, b).0, Run(h, a).1 + Run(Run(h, a).0, b).1)
  {
    hide Run, AdmissibleRun;
    RunSplit(h, a, b);
    assert forall x :: x in a + b <==> x in a || x in b;
  }

  lemma NothingYet(h: Handler, p: PeerId, send: BlockMetadata -> Bytes)
    ensures Dialogue(h, [], p, send) && Run(h, []) == (h, [])
  {
  }

  /** The run finishes the piece that is being downloaded, and changes nothing else. */
  ghost predicate Finishes(h: Handler, es: seq<Event>, p: PeerId, send: BlockMetadata -> Bytes) {
    && Dialogue(h, es, p, send) && es != [] && h.buffer.Some?
    && var i := h.buffer.value.pieceIndex;
       && i < |h.bitfield| && !h.bitfield[i] && IsPiece(Run(h, es).1[|es| - 1])
       && Run(h, es).0 == h.(buffer := None, bitfield := h.bitfield[i := true])
  }

  lemma FinishLater(h: Handler, e: Event, rest: seq<Event>, p: PeerId, send: BlockMetadata -> Bytes)
    requires Possible(h, e) && Admissible(h, e) && h.buffer.Some? && Finishes(Step(h, e).0, rest, p, send)
    requires !e.Acknowledge? && (e.BlockResponse? ==> e.peer == p && e.block.data == send(e.block.metadata))
    requires var h' := Step(h, e).0; h' == h.(buffer := h'.buffer)
                                     && h'.buffer.value.pieceIndex == h.buffer.value.pieceIndex
    ensures Finishes(h, [e] + rest, p, send)
  {
    hide Step, Run, Dialogue, Possible, Admissible;
    Prepend(h, e, rest, p, send);
  }

  lemma FinishNow(h: Handler, p: PeerId, send: BlockMetadata -> Bytes)
    requires Working(h, p) && p !in h.buffer.value.pending && h.buffer.value.missing == []
    ensures Finishes(h, [PollNow(h, p)], p, send)
  {
    var e := PollNow(h, p);
    WorkingFacts(h, p);
    PollNowIsValid(h, p);
    FinishStep(h, p);
    hide Step, Run, Dialogue, Working, ValidOrders;
    NothingYet(Step(h, e).0, p, send);
    assert [e] + [] == [e];
    Prepend(h, e, [], p, send);
  }

  /** The piece that is being downloaded is finished by polls and answers alone. */
  lemma {:induction false} FinishPiece(h: Handler, p: PeerId, send: BlockMetadata -> Bytes) returns (es: seq<Event>)
    requires Working(h, p) && Answers(send)
    ensures Finishes(h, es, p, send)
    decreases |h.buffer.value.missing|, |h.buffer.value.pending|
  {
    hide Answers, Working, Finishes, ValidOrders, MissingFrom;
    WorkingFacts(h, p);
    var b := h.buffer.value;
    if p in b.pending {
      var e := BlockResponse(p, Block(b.pending[p], send(b.pending[p])));
      AnswerStep(h, p, send);
      hide Buffer.AddBlock;
      WorkingFacts(Step(h, e).0, p);
      var rest := FinishPiece(Step(h, e).0, p, send);
      es := [e] + rest;
      FinishLater(h, e, rest, p, send);
    } else if b.missing == [] {
      es := [PollNow(h, p)];
      FinishNow(h, p, send);
    } else {
      var e := PollNow(h, p);
      PollNowIsValid(h, p);
      RequestStep(h, p);
      hide Handler.Poll;
      WorkingFacts(Step(h, e).0, p);
      var rest := FinishPiece(Step(h, e).0, p, send);
      es := [e] + rest;
      FinishLater(h, e, rest, p, send);
    }
  }

  lemma WorkingFacts(h: Handler, p: PeerId)
    requires Working(h, p)
    ensures h.peers.Keys == {p} && h.buffer.Some?
    ensures var b := h.buffer.value;
            && b.pieceIndex < |h.bitfield| && !h.bitfield[b.pieceIndex]
            && (if p in b.pending then |b.pending| == 1 else |b.pending| == 0)
  {
    BusyOrIdle(h, p);
    var b := h.buffer.value;
    assert |b.pending| == |b.pending.Keys|;
  }

  // ---------------------------------------------------------------- all pieces

  /** A handler between two pieces, with the one peer. */
  ghost predicate Between(h: Handler, p: PeerId) {
    Inv(h) && OnlySeeder(h, p) && h.buffer.None? && !h.finished
  }

  lemma SomebodyToAsk(h: Handler, p: PeerId)
    requires OnlySeeder(h, p) && !AllSet(h.bitfield)
    ensures !NobodyToAsk(h) && exists i: nat :: IsMissing(h, i)
  {
    hide Offers;
    AllSetExact(h);
    var i: nat :| IsMissing(h, i);
    assert p in h.peers.Keys;
    assert forall q :: q in h.peers ==> q in h.peers.Keys;
  }

  lemma NewIsEmpty(h: Handler, order: seq<nat>, ids: seq<PeerId>)
    requires h.buffer.None? && h.Poll(order, ids).0.buffer.Some?
    ensures h.Poll(order, ids).0.buffer.value.blocks == map[]
    ensures h.Poll(order, ids).0 == h.(buffer := h.Poll(order, ids).0.buffer)
  {
    SelectionIsFirst(h, order, ids);
    RandomSelects(h, order, ids);
    hide Handler.NextRandomPiece, Handler.NextPieceBuffer, Partition, Handler.AllCanSeed, AllSet;
  }

  lemma SelectStep(h: Handler, p: PeerId)
    requires Between(h, p) && !AllSet(h.bitfield)
    ensures var h' := Step(h, PollNow(h, p)).0; Working(h', p) && h' == h.(buffer := h'.buffer)
  {
    var order := MissingFrom(h.bitfield, 0);
    PollNowIsValid(h, p);
    SomebodyToAsk(h, p);
    IdlePoll(h, order, [p]);
    PollKeeps(h, order, [p]);
    NewIsEmpty(h, order, [p]);
    var h' := h.Poll(order, [p]).0;
    hide Handler.Poll, MissingFrom, ValidOrders, Offers, Conserved, Disciplined, NobodyToAsk;
    assert p in h.peers.Keys;
    assert AllCorrect(h'.buffer.value.blocks);
  }

  lemma AfterPiece(h: Handler, p: PeerId, i: nat)
    requires Between(h, p) && i < |h.bitfield| && !h.bitfield[i]
    ensures var h' := h.(bitfield := h.bitfield[i := true]);
            Between(h', p) && Missing(h'.bitfield) < Missing(h.bitfield)
  {
    hide Offers;
    MissingAfterSet(h.bitfield, i);
    var h' := h.(bitfield := h.bitfield[i := true]);
    assert forall k: nat :: IsMissing(h', k) ==> IsMissing(h, k);
  }

  /** The run ends with `Finished`. */
  ghost predicate Completes(h: Handler, es: seq<Event>, p: PeerId, send: BlockMetadata -> Bytes) {
    Dialogue(h, es, p, send) && es != [] && IsFinished(Run(h, es).1[|es| - 1])
  }

  lemma CompleteNow(h: Handler, p: PeerId, send: BlockMetadata -> Bytes)
    requires Between(h, p) && AllSet(h.bitfield)
    ensures Completes(h, [PollNow(h, p)], p, send)
  {
    var e := PollNow(h, p);
    PollNowIsValid(h, p);
    assert Step(h, e).1 == Polled(Finished);
    hide Step, Run, Dialogue, ValidOrders, AllSet;
    NothingYet(Step(h, e).0, p, send);
    assert [e] + [] == [e];
    Prepend(h, e, [], p, send);
  }

  lemma CompleteLater(h: Handler, a: seq<Event>, b: seq<Event>, p: PeerId, send: BlockMetadata -> Bytes)
    requires Dialogue(h, a, p, send) && Completes(Run(h, a).0, b, p, send)
    ensures Completes(h, a + b, p, send)
  {
    hide Run, Dialogue;
    Join(h, a, b, p, send);
  }

  /** Selecting a piece and finishing it. */
  lemma OnePiece(h: Handler, p: PeerId, send: BlockMetadata -> Bytes) returns (es: seq<Event>, i: nat)
    requires Between(h, p) && !AllSet(h.bitfield) && Answers(send)
    ensures Dialogue(h, es, p, send) && i < |h.bitfield| && !h.bitfield[i]
    ensures Run(h, es).0 == h.(bitfield := h.bitfield[i := true])
  {
    var e := PollNow(h, p);
    PollNowIsValid(h, p);
    SelectStep(h, p);
    hide Step, Run, Dialogue, Working, ValidOrders, AllSet, Answers;
    var h' := Step(h, e).0;
    WorkingFacts(h', p);
    i := h'.buffer.value.pieceIndex;
    var rest := FinishPiece(h', p, send);
    es := [e] + rest;
    Prepend(h, e, rest, p, send);
  }

  lemma {:induction false} FinishAll(h: Handler, p: PeerId, send: BlockMetadata -> Bytes) returns (es: seq<Event>)
    requires Between(h, p) && Answers(send)
    ensures Completes(h, es, p, send)
    decreases Missing(h.bitfield)
  {
    hide Between, Answers, Completes, Dialogue, AllSet, Missing;
    if AllSet(h.bitfield) {
      es := [PollNow(h, p)];
      CompleteNow(h, p, send);
    } else {
      var first, i := OnePiece(h, p, send);
      AfterPiece(h, p, i);
      var rest := FinishAll(h.(bitfield := h.bitfield[i := true]), p, send);
      es := first + rest;
      CompleteLater(h, first, rest, p, send);
    }
  }

  // ---------------------------------------------------------------- from a new handler

  /** The peer connects, says what it has, we say that we are interested, and it unchokes us. */
  function Greeting(p: PeerId, bits: seq<bool>): seq<Event> {
    [InsertPeer(p, FRESH_PEER), UpdatePeer(p, Peer(Some(bits), true, false, true, true)), RemoteChoke(p, false)]
  }

  lemma Greets(h: Handler, p: PeerId, bits: seq<bool>, send: BlockMetadata -> Bytes)
    requires h.buffer.None? && h.peers == map[]
    ensures Dialogue(h, Greeting(p, bits), p, send)
    ensures Run(h, Greeting(p, bits)).0 == h.(peers := map[p := Peer(Some(bits), false, false, true, true)])
  {
    var es := Greeting(p, bits);
    var h1 := h.(peers := map[p := FRESH_PEER]);
    var h2 := h.(peers := map[p := Peer(Some(bits), true, false, true, true)]);
    var h3 := h.(peers := map[p := Peer(Some(bits), false, false, true, true)]);
    assert Step(h, es[0]).0 == h1 && Step(h1, es[1]).0 == h2 && Step(h2, es[2]).0 == h3;
    assert Possible(h, es[0]) && Possible(h1, es[1]) && Possible(h2, es[2]);
    assert Admissible(h, es[0]) && Admissible(h1, es[1]) && Admissible(h2, es[2]);
    hide Step, Possible, Admissible;
    RunSteps([h, h1, h2, h3], es);
  }

  /** A new handler with pieces missing, and one peer that has them and answers requests: there is an admissible run of
      polls and answers that ends with `Finished`, and it reports each missing piece once. */
  lemma OneSeederSuffices(strategy: PieceSelection, bitfield: seq<bool>, pieceLength: nat, lastPieceLength: nat,
                          p: PeerId, bits: seq<bool>, send: BlockMetadata -> Bytes) returns (es: seq<Event>)
    requires !AllSet(bitfield) && Answers(send)
    requires forall i :: 0 <= i < |bitfield| && !bitfield[i] ==> i < |bits| && bits[i]
    ensures var h := Init(strategy, bitfield, pieceLength, lastPieceLength);
            && Completes(h, es, p, send)
            && Count(Run(h, es).1[..|es| - 1], IsPiece) == Missing(bitfield)
  {
    var h := Init(strategy, bitfield, pieceLength, lastPieceLength);
    InitIsFine(strategy, bitfield, pieceLength, lastPieceLength);
    Greets(h, p, bits, send);
    var h' := Run(h, Greeting(p, bits)).0;
    assert Between(h', p);
    hide Run, Dialogue, Between, Answers, Missing, AllSet, Inv;
    var rest := FinishAll(h', p, send);
    es := Greeting(p, bits) + rest;
    CompleteLater(h, Greeting(p, bits), rest, p, send);
    CountedPieces(h, es, p, send);
  }

  lemma {:induction false} NeverAcknowledged(h: Handler, es: seq<Event>)
    requires NoAcknowledge(es)
    ensures OwnedRun(h, es)
    decreases |es|
  {
    hide Step;
    if es != [] {
      assert es[0] in es;
      assert NoAcknowledge(es[1..]);
      NeverAcknowledged(Step(h, es[0]).0, es[1..]);
    }
  }

  lemma CountedPieces(h: Handler, es: seq<Event>, p: PeerId, send: BlockMetadata -> Bytes)
    requires Inv(h) && Completes(h, es, p, send)
    ensures Count(Run(h, es).1[..|es| - 1], IsPiece) == Missing(h.bitfield)
  {
    hide Run, AdmissibleRun, OwnedRun, Missing, Inv, Count;
    NeverAcknowledged(h, es);
    CompletionAt(h, es, |es| - 1);
  }
}
