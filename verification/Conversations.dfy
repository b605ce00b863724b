/** Two handlers that talk to each other over the wire: what one is told to say, the other reports
    (src/handler.rs, src/proto/codec.rs). */
module Conversations {
  import opened Collections
  import opened Messages
  import opened Codec
  import opened Substreams
  import opened Handlers
  import opened Connections
  import opened Visits
  import opened Outcomes

  // ---------------------------------------------------------------- what is said and what is heard

  /** What the remote reports when the command reaches it. */
  predicate Mirrors(c: Command, e: HandlerEvent, id: ConnectionId) {
    match c
    case AskHandshake(h, _) => e == HandshakeReq(h, id)
    case AskBitfield(bits, _) => e == BitfieldReq(bits, id)
    case AskPiece(r, _) => e == GetPieceReq(r, id)
    case SayChoke(choked) => e == ChokeEvent(choked)
    case SayInterest(interested) => e == InterestEvent(interested)
    case SayHave(i) => e == HaveEvent(i)
    case SayKeepAlive => e == KeepAliveEvent
    case CancelRequest(r, _) => e == CancelPiece(r, id)
    case _ => false
  }

  /** What the asker reports when the answer reaches it. */
  predicate Brings(c: Command, e: HandlerEvent, user: UserData) {
    match c
    case AnswerHandshake(h, _) => e == HandshakeRes(h, user)
    case AnswerBitfield(bits, _) => e == BitfieldRes(bits, user)
    case AnswerPiece(i, b, block, _) => e == GetPieceRes(Piece(i, b, block), user)
    case _ => false
  }

  lemma SaidIsTold(c: Command, msg: PeerMessage, data: Option<UserData>, e: HandlerEvent, id: ConnectionId)
    requires Says(c, msg, data) && Told(e, msg, id)
    ensures Mirrors(c, e, id)
  {
  }

  lemma RepliedIsBrought(c: Command, id: ConnectionId, msg: PeerMessage, e: HandlerEvent, user: UserData)
    requires Replies(c, id, msg) && Reply(e, msg, user)
    ensures Brings(c, e, user)
  {
  }

  // ---------------------------------------------------------------- the wire

  /** What a stream hands over when these bytes have arrived. */
  function FromWire(bytes: Bytes): Next {
    match DecodeFrame(bytes).result
    case Decoded(m) => Message(m)
    case NeedMore => NextLater
    case _ => NextFailed
  }

  lemma SafeArrives(m: PeerMessage)
    requires m.Sized() && WireSafe(m)
    ensures FromWire(Encode(m)) == Message(m)
  {
    hide DecodeFrame, Encode, WireSafe;
    RoundTrip(m, []);
    assert Encode(m) + [] == Encode(m);
  }

  /** The stream takes a message and lets it go, and nothing has come yet. */
  const OUT := [Io(Done, true, Later, NextLater, Later), Io(Later, false, Done, NextLater, Later), IDLE_IO]

  /** The bytes have come. */
  function IN(bytes: Bytes): seq<Io> {
    [Io(Later, false, Later, FromWire(bytes), Later)]
  }

  // ---------------------------------------------------------------- a handler with one substream

  lemma OneVisit(s: Node, x: SubstreamState, ios: seq<Io>)
    requires s.conn.subs == [x]
    ensures var v := Settle(x, ios, 0);
            var (s', r) := Step(s, Poll([ios]));
            && s'.conn.subs == (if v.Visit? && v.state.Some? then [v.state.value] else [])
            && r == (if v.Crashed? then Crash else if v.event.Some? then Ready(v.event.value) else Pending)
            && s'.conn.nextId == s.conn.nextId
            && s'.opening == s.opening + (if v.Visit? && v.event.Some? && v.event.value.OpenRequest?
                                          then [(v.event.value.msg, v.event.value.data)] else [])
  {
    hide Settle;
    assert SwapRemove([x], 0) == [];
    assert IosAt([ios], 0) == ios;
    var v := Settle(x, ios, 0);
    var rest: seq<SubstreamState> := [];
    assert Sweep([x], 1, [ios]).subs == if v.Visit? && v.state.Some? then [v.state.value] else [];
  }

  /** The message goes out, and the substream waits for what comes back. */
  lemma GoesOut(s: SubstreamState)
    requires (s.OutPendingSend? || s.InPendingSend?) && (s.OutPendingSend? ==> s.data.Some?)
    ensures var out := s.stream.(sent := s.stream.sent + [s.msg]);
            Settle(s, OUT, 0) == Visit(Some(if s.InPendingSend? then InWaitingMessage(s.id, out)
                                            else OutWaitingAnswer(out, s.data.value)), None)
  {
    var out := s.stream.(sent := s.stream.sent + [s.msg]);
    Turn(s, OUT, 0);
    if s.InPendingSend? {
      Turn(InPendingFlush(s.id, out), OUT, 1);
      Turn(InWaitingMessage(s.id, out), OUT, 2);
    } else {
      Turn(OutPendingFlush(out, s.data), OUT, 1);
      Turn(OutWaitingAnswer(out, s.data.value), OUT, 2);
    }
    hide Settle;
  }

  /** Nothing is going on. */
  predicate Idle(s: Node) {
    s.conn.subs == [] && s.opening == []
  }

  // ---------------------------------------------------------------- asking

  /** The handler is told to say something, asks for a substream, gets it and sends. */
  function Asking(c: Command): seq<Event> {
    [Inject(c), Poll([[]]), OutboundOpened(0), Poll([OUT])]
  }

  /** The remote opens a substream, and the bytes come. */
  function Hearing(bytes: Bytes): seq<Event> {
    [InboundOpened, Poll([IN(bytes)])]
  }

  lemma Opens(s: Node, c: Command, msg: PeerMessage, data: Option<UserData>)
    requires Idle(s) && Says(c, msg, data)
    ensures var s1 := Step(s, Inject(c)).0;
            var (s2, r) := Step(s1, Poll([[]]));
            var s3 := Step(s2, OutboundOpened(0)).0;
            && r == Ready(OpenRequest(msg, data))
            && s3.conn.subs == [OutPendingSend(NEW_STREAM, msg, data)] && s3.opening == []
            && s3.conn.nextId == s.conn.nextId
  {
    var s1 := Step(s, Inject(c)).0;
    assert s1.conn.subs == [OutPendingOpen(msg, data)];
    OneVisit(s1, OutPendingOpen(msg, data), []);
    Turn(OutPendingOpen(msg, data), [], 0);
    hide Sweep, Settle;
    var s2 := Step(s1, Poll([[]])).0;
    assert s2.opening == [(msg, data)];
  }

  /** After asking, the message has been sent and the substream waits for the answer. */
  lemma Asks(s: Node, c: Command, msg: PeerMessage, user: UserData)
    requires Idle(s) && Says(c, msg, Some(user))
    ensures var s' := Run(s, Asking(c)).0;
            s'.conn.subs == [OutWaitingAnswer(Stream([], [msg]), user)] && s'.opening == []
  {
    var es := Asking(c);
    Opens(s, c, msg, Some(user));
    var s1 := Step(s, es[0]).0;
    var s2 := Step(s1, es[1]).0;
    var s3 := Step(s2, es[2]).0;
    var x := OutPendingSend(NEW_STREAM, msg, Some(user));
    OneVisit(s3, x, OUT);
    GoesOut(x);
    assert NEW_STREAM.(sent := NEW_STREAM.sent + [msg]) == Stream([], [msg]);
    hide Step, Settle;
    RunFour(s, es);
  }

  lemma RunFour(s: Node, es: seq<Event>)
    requires |es| == 4
    ensures Run(s, es).0 == Step(Step(Step(Step(s, es[0]).0, es[1]).0, es[2]).0, es[3]).0
  {
    hide Step;
    StepOf(s, es, 0);
    StepOf(s, es, 1);
    StepOf(s, es, 2);
    StepOf(s, es, 3);
    assert es[..0] == [] && es[..4] == es;
  }

  lemma RunTwo(s: Node, es: seq<Event>)
    requires |es| == 2
    ensures var s1 := Step(s, es[0]).0;
            Run(s, es) == (Step(s1, es[1]).0, [Step(s, es[0]).1, Step(s1, es[1]).1])
  {
    hide Step;
    StepOf(s, es, 0);
    StepOf(s, es, 1);
    assert es[..0] == [] && es[..2] == es;
    assert Run(s, es).1 == [Run(s, es).1[0], Run(s, es).1[1]];
  }

  /** A poll that reads the message on the only substream. */
  lemma ReadsIt(s: Node, id: ConnectionId, msg: PeerMessage)
    requires s.conn.subs == [InWaitingMessage(id, NEW_STREAM)] && msg.Sized() && WireSafe(msg) && !msg.Port?
    ensures var (s', r) := Step(s, Poll([IN(Encode(msg))]));
            && s'.conn.subs == [InWaitingUser(id, Stream([msg], []))] && s'.opening == s.opening
            && r.Ready? && r.event.Custom? && Told(r.event.event, msg, id)
  {
    var ios := IN(Encode(msg));
    OneVisit(s, InWaitingMessage(id, NEW_STREAM), ios);
    SafeArrives(msg);
    hide FromWire, Encode;
    MessageTurn(id, NEW_STREAM, ios, 0);
    assert NEW_STREAM.(got := NEW_STREAM.got + [msg]) == Stream([msg], []);
    hide Step, Settle, Told;
  }

  /** The remote hears the message. */
  lemma HearsIt(s: Node, msg: PeerMessage)
    requires Idle(s) && msg.Sized() && WireSafe(msg) && !msg.Port?
    ensures var (s', outs) := Run(s, Hearing(Encode(msg)));
            && s'.conn.subs == [InWaitingUser(s.conn.nextId, Stream([msg], []))]
            && outs[1].Ready? && outs[1].event.Custom? && Told(outs[1].event.event, msg, s.conn.nextId)
  {
    var s1 := Step(s, InboundOpened).0;
    assert s1.conn.subs == [InWaitingMessage(s.conn.nextId, NEW_STREAM)];
    hide Step, Run, Told, Encode, WireSafe;
    ReadsIt(s1, s.conn.nextId, msg);
    RunTwo(s, Hearing(Encode(msg)));
  }

  // ---------------------------------------------------------------- answering

  function Answering(c: Command): seq<Event> {
    [Inject(c), Poll([OUT])]
  }

  /** The user of the remote answers, and the answer is sent. */
  lemma AnswersIt(s: Node, id: ConnectionId, stream: Stream, c: Command, msg: PeerMessage)
    requires s.conn.subs == [InWaitingUser(id, stream)] && Replies(c, id, msg)
    ensures Run(s, Answering(c)).0.conn.subs == [InWaitingMessage(id, stream.(sent := stream.sent + [msg]))]
  {
    var es := Answering(c);
    var s1 := Step(s, es[0]).0;
    var x := InPendingSend(id, stream, msg);
    assert WaitingAt(s.conn.subs, id) == 0;
    assert RemoveAt(s.conn.subs, 0) == [];
    assert s1.conn.subs == [x];
    OneVisit(s1, x, OUT);
    GoesOut(x);
    hide Step, Settle;
    RunTwo(s, es);
  }

  /** The answer comes, and is reported with the data of the request. */
  lemma IsAnswered(s: Node, stream: Stream, user: UserData, msg: PeerMessage)
    requires s.conn.subs == [OutWaitingAnswer(stream, user)] && msg.Sized() && WireSafe(msg) && !msg.Port?
    ensures var r := Step(s, Poll([IN(Encode(msg))])).1;
            r.Ready? && r.event.Custom? && Reply(r.event.event, msg, user)
  {
    OneVisit(s, OutWaitingAnswer(stream, user), IN(Encode(msg)));
    SafeArrives(msg);
    hide FromWire, Encode;
    AnswerTurn(stream, user, IN(Encode(msg)), 0);
    hide Step, Settle, Reply;
  }

  // ---------------------------------------------------------------- the whole conversation

  /** One handler is told to ask, the other reports the request as it was asked; its user answers, and the first
      reports the answer as it was given, with the data of the request. The messages travel as bytes. */
  lemma Conversation(a: Node, b: Node, ask: Command, question: PeerMessage, user: UserData, answer: Command,
                     reply: PeerMessage)
    requires Idle(a) && Idle(b) && Says(ask, question, Some(user)) && Replies(answer, b.conn.nextId, reply)
    requires question.Sized() && WireSafe(question) && reply.Sized() && WireSafe(reply)
    ensures var a1 := Run(a, Asking(ask)).0;
            var (b1, outs) := Run(b, Hearing(Encode(question)));
            var b2 := Run(b1, Answering(answer)).0;
            var r := Step(a1, Poll([IN(Encode(reply))])).1;
            && a1.conn.subs == [OutWaitingAnswer(Stream([], [question]), user)]
            && outs[1].Ready? && outs[1].event.Custom? && Mirrors(ask, outs[1].event.event, b.conn.nextId)
            && b2.conn.subs == [InWaitingMessage(b.conn.nextId, Stream([question], [reply]))]
            && r.Ready? && r.event.Custom? && Brings(answer, r.event.event, user)
  {
    hide Run, Step, WireSafe, Encode, Told, Reply, Mirrors, Brings;
    Asks(a, ask, question, user);
    HearsIt(b, question);
    var a1 := Run(a, Asking(ask)).0;
    var (b1, outs) := Run(b, Hearing(Encode(question)));
    SaidIsTold(ask, question, Some(user), outs[1].event.event, b.conn.nextId);
    AnswersIt(b1, b.conn.nextId, Stream([question], []), answer, reply);
    assert Stream([question], []).(sent := [] + [reply]) == Stream([question], [reply]);
    IsAnswered(a1, Stream([], [question]), user, reply);
    RepliedIsBrought(answer, b.conn.nextId, reply, Step(a1, Poll([IN(Encode(reply))])).1.event.event, user);
  }

  /** The message goes out, and the substream is about to close. */
  lemma GoesOutLast(msg: PeerMessage)
    ensures Settle(OutPendingSend(NEW_STREAM, msg, None), OUT, 0) == Visit(Some(OutClosing(Stream([], [msg]))), None)
  {
    var out := Stream([], [msg]);
    assert NEW_STREAM.(sent := NEW_STREAM.sent + [msg]) == out;
    Turn(OutPendingSend(NEW_STREAM, msg, None), OUT, 0);
    Turn(OutPendingFlush(out, None), OUT, 1);
    Turn(OutClosing(out), OUT, 2);
    hide Settle;
  }

  lemma SaysIt(s: Node, c: Command, msg: PeerMessage)
    requires Idle(s) && Says(c, msg, None)
    ensures Run(s, Asking(c)).0.conn.subs == [OutClosing(Stream([], [msg]))]
  {
    var es := Asking(c);
    Opens(s, c, msg, None);
    var s1 := Step(s, es[0]).0;
    var s2 := Step(s1, es[1]).0;
    var s3 := Step(s2, es[2]).0;
    OneVisit(s3, OutPendingSend(NEW_STREAM, msg, None), OUT);
    GoesOutLast(msg);
    hide Step, Settle;
    RunFour(s, es);
  }

  /** What expects no answer: the message is sent, and the other handler reports what it says. */
  lemma Announcement(a: Node, b: Node, say: Command, msg: PeerMessage)
    requires Idle(a) && Idle(b) && Says(say, msg, None)
    ensures var a1 := Run(a, Asking(say)).0;
            var outs := Run(b, Hearing(Encode(msg))).1;
            && a1.conn.subs == [OutClosing(Stream([], [msg]))]
            && outs[1].Ready? && outs[1].event.Custom? && Mirrors(say, outs[1].event.event, b.conn.nextId)
  {
    hide Step, Run, Encode, Told, Mirrors;
    SaysIt(a, say, msg);
    HearsIt(b, msg);
    var outs := Run(b, Hearing(Encode(msg))).1;
    SaidIsTold(say, msg, None, outs[1].event.event, b.conn.nextId);
  }
}
