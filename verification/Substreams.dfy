/** The states of a substream and how one advances (src/handler.rs). */
module Substreams {
  import opened Collections
  import opened Messages

  type UserData = nat
  type ConnectionId = nat

  /** A negotiated stream, as the messages taken from it and handed to it so far. */
  datatype Stream = Stream(got: seq<PeerMessage>, sent: seq<PeerMessage>)

  const NEW_STREAM := Stream([], [])

  datatype Error = Upgrade | UnexpectedMessage(msg: PeerMessage) | IoError

  datatype SubstreamState =
    | OutPendingOpen(msg: PeerMessage, data: Option<UserData>)
    | OutPendingSend(stream: Stream, msg: PeerMessage, data: Option<UserData>)
    | OutPendingFlush(stream: Stream, data: Option<UserData>)
    | OutWaitingAnswer(stream: Stream, user: UserData)
    | OutReportError(error: Error, user: UserData)
    | OutClosing(stream: Stream)
    | InWaitingMessage(id: ConnectionId, stream: Stream)
    | InWaitingUser(id: ConnectionId, stream: Stream)
    | InPendingSend(id: ConnectionId, stream: Stream, msg: PeerMessage)
    | InPendingFlush(id: ConnectionId, stream: Stream)
    | InClosing(stream: Stream)

  /** The events for the user of the handler. */
  datatype HandlerEvent =
    | HandshakeReq(handshake: Handshake, id: ConnectionId)
    | HandshakeRes(handshake: Handshake, user: UserData)
    | BitfieldReq(bits: seq<bool>, id: ConnectionId)
    | BitfieldRes(bits: seq<bool>, user: UserData)
    | GetPieceReq(request: PeerRequest, id: ConnectionId)
    | GetPieceRes(piece: PeerMessage, user: UserData)
    | CancelPiece(request: PeerRequest, id: ConnectionId)
    | ChokeEvent(choked: bool)
    | InterestEvent(interested: bool)
    | HaveEvent(have: U32)
    | KeepAliveEvent
    | TorrentErr(error: Error, data: Option<UserData>)

  /** What a poll hands out: a request to open a substream, or an event. */
  datatype PollEvent =
    | OpenRequest(msg: PeerMessage, data: Option<UserData>)
    | Custom(event: HandlerEvent)

  /** The answers of the stream to one call. */
  datatype Tri = Later | Done | Failed
  datatype Next = NextLater | Message(msg: PeerMessage) | NextFailed | EndOfStream
  datatype Io = Io(ready: Tri, accepts: bool, flush: Tri, next: Next, close: Tri)

  const IDLE_IO := Io(Later, false, Later, NextLater, Later)

  /** New state, event, and whether to poll the substream again. A Port message is not implemented. */
  datatype Advanced =
    | Advanced(state: Option<SubstreamState>, event: Option<PollEvent>, again: bool)
    | Panicked

  /** `process_btt_in`: a message that should be a request of the remote. */
  function ProcessIn(m: PeerMessage, id: ConnectionId): Option<HandlerEvent> {
    match m
    case HandshakeMsg(h) => Some(HandshakeReq(h, id))
    case Bitfield(bits) => Some(BitfieldReq(bits, id))
    case KeepAlive => Some(KeepAliveEvent)
    case Choke => Some(ChokeEvent(true))
    case UnChoke => Some(ChokeEvent(false))
    case Interested => Some(InterestEvent(true))
    case NotInterested => Some(InterestEvent(false))
    case Have(i) => Some(HaveEvent(i))
    case Request(r) => Some(GetPieceReq(r, id))
    case Cancel(r) => Some(CancelPiece(r, id))
    case Piece(_, _, _) => Some(TorrentErr(UnexpectedMessage(m), None))
    case Port(_) => None
  }

  /** `process_btt_out`: a message that should answer one of our requests. */
  function ProcessOut(m: PeerMessage, user: UserData): Option<HandlerEvent> {
    match m
    case Bitfield(bits) => Some(BitfieldRes(bits, user))
    case Piece(_, _, _) => Some(GetPieceRes(m, user))
    case HandshakeMsg(h) => Some(HandshakeRes(h, user))
    case Port(_) => None
    case _ => Some(TorrentErr(UnexpectedMessage(m), Some(user)))
  }

  function ErrorEvent(data: Option<UserData>): Option<PollEvent> {
    if data.Some? then Some(Custom(TorrentErr(IoError, data))) else None
  }

  /** `advance_substream`. */
  function Advance(s: SubstreamState, io: Io): Advanced {
    match s
    case OutPendingOpen(msg, data) => Advanced(None, Some(OpenRequest(msg, data)), false)
    case OutPendingSend(stream, msg, data) =>
      (match io.ready
       case Done =>
         if io.accepts then Advanced(Some(OutPendingFlush(stream.(sent := stream.sent + [msg]), data)), None, true)
         else Advanced(None, ErrorEvent(data), false)
       case Later => Advanced(Some(s), None, false)
       case Failed => Advanced(None, ErrorEvent(data), false))
    case OutPendingFlush(stream, data) =>
      (match io.flush
       case Done =>
         if data.Some? then Advanced(Some(OutWaitingAnswer(stream, data.value)), None, true)
         else Advanced(Some(OutClosing(stream)), None, true)
       case Later => Advanced(Some(s), None, false)
       case Failed => Advanced(None, ErrorEvent(data), false))
    case OutWaitingAnswer(stream, user) =>
      (match io.next
       case Message(m) =>
         var event := ProcessOut(m, user);
         if event.None? then Panicked
         else Advanced(Some(OutClosing(stream.(got := stream.got + [m]))), Some(Custom(event.value)), true)
       case NextLater => Advanced(Some(s), None, false)
       case NextFailed => Advanced(None, Some(Custom(TorrentErr(IoError, Some(user)))), false)
       case EndOfStream => Advanced(None, Some(Custom(TorrentErr(IoError, Some(user)))), false))
    case OutReportError(error, user) => Advanced(None, Some(Custom(TorrentErr(error, Some(user)))), false)
    case OutClosing(_) => Advanced(if io.close.Later? then Some(s) else None, None, false)
    case InWaitingMessage(id, stream) =>
      (match io.next
       case Message(m) =>
         var event := ProcessIn(m, id);
         if event.None? then Panicked
         else Advanced(Some(InWaitingUser(id, stream.(got := stream.got + [m]))), Some(Custom(event.value)), false)
       case NextLater => Advanced(Some(s), None, false)
       case NextFailed => Advanced(None, None, false)
       case EndOfStream => Advanced(None, None, false))
    case InWaitingUser(_, _) => Advanced(Some(s), None, false)
    case InPendingSend(id, stream, msg) =>
      (match io.ready
       case Done =>
         if io.accepts then Advanced(Some(InPendingFlush(id, stream.(sent := stream.sent + [msg]))), None, true)
         else Advanced(None, None, false)
       case Later => Advanced(Some(s), None, false)
       case Failed => Advanced(None, None, false))
    case InPendingFlush(id, stream) =>
      (match io.flush
       case Done => Advanced(Some(InWaitingMessage(id, stream)), None, true)
       case Later => Advanced(Some(s), None, false)
       case Failed => Advanced(None, None, false))
    case InClosing(_) => Advanced(if io.close.Later? then Some(s) else None, None, false)
  }

  /** How far a substream is from coming to rest. */
  function Rank(s: SubstreamState): nat {
    match s
    case OutPendingSend(_, _, _) => 3
    case OutPendingFlush(_, _) => 2
    case OutWaitingAnswer(_, _) => 1
    case InPendingSend(_, _, _) => 2
    case InPendingFlush(_, _) => 1
    case _ => 0
  }

  /** The inner re-poll loop terminates: polling again means a lower rank. */
  lemma RankDecreases(s: SubstreamState, io: Io)
    requires var a := Advance(s, io); a.Advanced? && a.state.Some? && a.event.None? && a.again
    ensures Rank(Advance(s, io).state.value) < Rank(s)
  {
  }

  /** The decoder may hand over a Port message; reading one is the only way to panic. */
  lemma PanicExact(s: SubstreamState, io: Io)
    ensures Advance(s, io).Panicked? <==>
              (s.OutWaitingAnswer? || s.InWaitingMessage?) && io.next.Message? && io.next.msg.Port?
  {
  }

  // ---------------------------------------------------------------- accounts

  function DataIn(data: Option<UserData>): multiset<UserData> {
    if data.Some? then multiset{data.value} else multiset{}
  }

  /** The user data a substream still owes an event for. */
  function Owes(s: SubstreamState): multiset<UserData> {
    match s
    case OutPendingOpen(_, data) => DataIn(data)
    case OutPendingSend(_, _, data) => DataIn(data)
    case OutPendingFlush(_, data) => DataIn(data)
    case OutWaitingAnswer(_, user) => multiset{user}
    case OutReportError(_, user) => multiset{user}
    case _ => multiset{}
  }

  /** The user data that an event gives back. */
  function Reports(e: HandlerEvent): multiset<UserData> {
    match e
    case HandshakeRes(_, user) => multiset{user}
    case BitfieldRes(_, user) => multiset{user}
    case GetPieceRes(_, user) => multiset{user}
    case TorrentErr(_, data) => DataIn(data)
    case _ => multiset{}
  }

  /** The user data that leaves the handler, as a report or on the way to an opened substream. */
  function Carries(e: Option<PollEvent>): multiset<UserData> {
    if e.None? then multiset{}
    else match e.value case OpenRequest(_, data) => DataIn(data) case Custom(event) => Reports(event)
  }

  function OwesOpt(s: Option<SubstreamState>): multiset<UserData> {
    if s.Some? then Owes(s.value) else multiset{}
  }

  /** The identifier of an inbound substream. */
  function Ids(s: SubstreamState): multiset<ConnectionId> {
    match s
    case InWaitingMessage(id, _) => multiset{id}
    case InWaitingUser(id, _) => multiset{id}
    case InPendingSend(id, _, _) => multiset{id}
    case InPendingFlush(id, _) => multiset{id}
    case _ => multiset{}
  }

  function IdsOpt(s: Option<SubstreamState>): multiset<ConnectionId> {
    if s.Some? then Ids(s.value) else multiset{}
  }

  /** Inbound, requests and replies alternate: the remote is owed one reply or none. Outbound, one message
      goes out and at most one comes back. */
  predicate Alternates(s: SubstreamState) {
    match s
    case InWaitingMessage(_, stream) => |stream.got| == |stream.sent|
    case InWaitingUser(_, stream) => |stream.got| == |stream.sent| + 1
    case InPendingSend(_, stream, _) => |stream.got| == |stream.sent| + 1
    case InPendingFlush(_, stream) => |stream.got| == |stream.sent|
    case OutPendingSend(stream, _, _) => |stream.sent| == 0 && |stream.got| == 0
    case OutPendingFlush(stream, _) => |stream.sent| == 1 && |stream.got| == 0
    case OutWaitingAnswer(stream, _) => |stream.sent| == 1 && |stream.got| == 0
    case OutClosing(stream) => |stream.sent| == 1 && |stream.got| <= 1
    case _ => true
  }

  // ---------------------------------------------------------------- a visit

  /** A visit polls one substream until it rests, yields an event, goes away or panics. */
  datatype Visit = Visit(state: Option<SubstreamState>, event: Option<PollEvent>) | Crashed

  function IoAt(ios: seq<Io>, k: nat): Io {
    if k < |ios| then ios[k] else IDLE_IO
  }

  function Settle(s: SubstreamState, ios: seq<Io>, k: nat): Visit
    decreases Rank(s)
  {
    var a := Advance(s, IoAt(ios, k));
    match a
    case Panicked => Crashed
    case Advanced(state, event, again) =>
      if state.Some? && event.None? && again then
        RankDecreases(s, IoAt(ios, k));
        Settle(state.value, ios, k + 1)
      else Visit(state, event)
  }

  lemma AnswerReports(m: PeerMessage, user: UserData)
    requires ProcessOut(m, user).Some?
    ensures Reports(ProcessOut(m, user).value) == multiset{user}
  {
  }

  lemma RequestReportsNothing(m: PeerMessage, id: ConnectionId)
    requires ProcessIn(m, id).Some?
    ensures Reports(ProcessIn(m, id).value) == multiset{}
  {
  }

  /** The ways an advance can balance: the data stays, or it leaves with the event. */
  lemma CarriesFacts(data: Option<UserData>, user: UserData, error: Error, msg: PeerMessage)
    ensures Carries(ErrorEvent(data)) == DataIn(data)
    ensures Carries(Some(Custom(TorrentErr(error, Some(user))))) == multiset{user}
    ensures Carries(Some(OpenRequest(msg, data))) == DataIn(data)
    ensures Carries(None) == multiset{} && OwesOpt(None) == multiset{}
  {
    hide Owes;
  }

  lemma SendingOwes(s: SubstreamState, io: Io)
    requires s.OutPendingOpen? || s.OutPendingSend?
    ensures var a := Advance(s, io); a.Advanced? && Owes(s) == OwesOpt(a.state) + Carries(a.event)
  {
    CarriesFacts(s.data, 0, IoError, s.msg);
    hide Carries, DataIn, ProcessIn, ProcessOut;
  }

  lemma FlushingOwes(s: SubstreamState, io: Io)
    requires s.OutPendingFlush?
    ensures var a := Advance(s, io); a.Advanced? && Owes(s) == OwesOpt(a.state) + Carries(a.event)
  {
    hide Carries, DataIn, ProcessIn, ProcessOut;
    CarriesFacts(s.data, 0, IoError, KeepAlive);
    DataFacts(s.data);
  }

  lemma DataFacts(data: Option<UserData>)
    ensures DataIn(data) == if data.Some? then multiset{data.value} else multiset{}
  {
  }

  lemma WaitingOwes(s: SubstreamState, io: Io)
    requires (s.OutWaitingAnswer? && !io.next.Message?) || s.OutReportError?
    ensures var a := Advance(s, io); a.Advanced? && Owes(s) == OwesOpt(a.state) + Carries(a.event)
  {
    CarriesFacts(None, s.user, if s.OutReportError? then s.error else IoError, KeepAlive);
    hide Carries, ProcessIn, ProcessOut, DataIn;
  }

  /** The states that carry no data of a request. */
  lemma FreeOwes(s: SubstreamState, io: Io)
    requires Advance(s, io).Advanced? && Owes(s) == multiset{}
    requires !s.OutPendingOpen? && !s.OutPendingSend? && !s.OutPendingFlush?
    requires !(s.InWaitingMessage? && io.next.Message?)
    ensures var a := Advance(s, io); Owes(s) == OwesOpt(a.state) + Carries(a.event)
  {
    hide ProcessIn, ProcessOut, DataIn;
  }

  lemma AnsweredOwes(s: SubstreamState, io: Io)
    requires s.OutWaitingAnswer? && io.next.Message? && Advance(s, io).Advanced?
    ensures var a := Advance(s, io); Owes(s) == OwesOpt(a.state) + Carries(a.event)
  {
    AnswerReports(io.next.msg, s.user);
    hide ProcessIn, ProcessOut, Reports;
  }

  lemma AskedOwes(s: SubstreamState, io: Io)
    requires s.InWaitingMessage? && io.next.Message? && Advance(s, io).Advanced?
    ensures var a := Advance(s, io); Owes(s) == OwesOpt(a.state) + Carries(a.event)
  {
    RequestReportsNothing(io.next.msg, s.id);
    hide ProcessIn, ProcessOut, Reports;
  }

  lemma AdvanceOwes(s: SubstreamState, io: Io)
    requires Advance(s, io).Advanced?
    ensures var a := Advance(s, io); Owes(s) == OwesOpt(a.state) + Carries(a.event)
  {
    hide Advance, Carries, OwesOpt, DataIn;
    if s.OutWaitingAnswer? && io.next.Message? {
      AnsweredOwes(s, io);
    } else if s.InWaitingMessage? && io.next.Message? {
      AskedOwes(s, io);
    } else if s.OutPendingOpen? || s.OutPendingSend? {
      SendingOwes(s, io);
    } else if s.OutPendingFlush? {
      FlushingOwes(s, io);
    } else if s.OutWaitingAnswer? || s.OutReportError? {
      WaitingOwes(s, io);
    } else {
      FreeOwes(s, io);
    }
  }

  lemma AdvanceIds(s: SubstreamState, io: Io)
    requires Advance(s, io).Advanced? && Advance(s, io).state.Some?
    ensures Ids(Advance(s, io).state.value) == Ids(s)
  {
    hide ProcessIn, ProcessOut;
  }

  lemma AdvanceAlternates(s: SubstreamState, io: Io)
    requires Advance(s, io).Advanced? && Advance(s, io).state.Some? && Alternates(s)
    ensures Alternates(Advance(s, io).state.value)
  {
    hide ProcessIn, ProcessOut;
  }

  /** A visit that does not panic loses and invents no user data, keeps the identifier of a substream
      that survives, and keeps requests and replies alternating. */
  lemma {:induction false} SettleKeeps(s: SubstreamState, ios: seq<Io>, k: nat)
    requires !Settle(s, ios, k).Crashed?
    ensures var v := Settle(s, ios, k);
            && Owes(s) == OwesOpt(v.state) + Carries(v.event)
            && (v.state.Some? ==> IdsOpt(v.state) == Ids(s))
            && (Alternates(s) && v.state.Some? ==> Alternates(v.state.value))
    decreases Rank(s)
  {
    hide Advance, Owes, OwesOpt, Carries, Ids, IdsOpt, Alternates;
    var io := IoAt(ios, k);
    var a := Advance(s, io);
    AdvanceOwes(s, io);
    if a.state.Some? {
      AdvanceIds(s, io);
      NothingCarried(a.state.value);
      if Alternates(s) {
        AdvanceAlternates(s, io);
      }
    }
    if a.state.Some? && a.event.None? && a.again {
      RankDecreases(s, io);
      SettleKeeps(a.state.value, ios, k + 1);
    }
  }

  lemma NothingCarried(s: SubstreamState)
    ensures OwesOpt(Some(s)) + Carries(None) == Owes(s) && IdsOpt(Some(s)) == Ids(s)
  {
  }
}
