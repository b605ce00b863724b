/** What one visit of a substream and one poll of a connection report, told from the answers of the streams
    (src/handler.rs). */
module Visits {
  import opened Collections
  import opened Messages
  import opened Substreams
  import opened Handlers
  import opened Connections

  // ---------------------------------------------------------------- how far a visit gets

  /** The substream has a stream to send on, to flush or to read from. */
  predicate Speaks(s: SubstreamState) {
    || s.OutPendingSend? || s.OutPendingFlush? || s.OutWaitingAnswer?
    || s.InPendingSend? || s.InPendingFlush? || s.InWaitingMessage?
  }

  /** 0: it has a message to send; 1: to flush; 2: to read one. */
  function Stage(s: SubstreamState): nat {
    if s.OutPendingSend? || s.InPendingSend? then 0
    else if s.OutPendingFlush? || s.InPendingFlush? then 1
    else 2
  }

  /** The user data that an answer is owed to. */
  function UserOf(s: SubstreamState): Option<UserData> {
    match s
    case OutPendingSend(_, _, data) => data
    case OutPendingFlush(_, data) => data
    case OutWaitingAnswer(_, user) => Some(user)
    case _ => None
  }

  /** A message is read once the last one is out: inbound always, outbound if an answer is expected. */
  predicate Reads(s: SubstreamState) {
    Inbound(s) || UserOf(s).Some?
  }

  /** The answers of the stream, in the order in which a visit asks for them. */
  function SendIo(ios: seq<Io>): Io {
    IoAt(ios, 0)
  }

  function FlushIo(s: SubstreamState, ios: seq<Io>): Io {
    IoAt(ios, if Stage(s) == 0 then 1 else 0)
  }

  function ReadIo(s: SubstreamState, ios: seq<Io>): Io {
    IoAt(ios, 2 - Stage(s))
  }

  predicate Sent(s: SubstreamState, ios: seq<Io>) {
    Stage(s) > 0 || (SendIo(ios).ready.Done? && SendIo(ios).accepts)
  }

  predicate Flushed(s: SubstreamState, ios: seq<Io>) {
    Sent(s, ios) && (Stage(s) > 1 || FlushIo(s, ios).flush.Done?)
  }

  /** Sending, flushing or reading fails, or the stream ends. */
  predicate Breaks(s: SubstreamState, ios: seq<Io>) {
    || (Stage(s) == 0 && (SendIo(ios).ready.Failed? || (SendIo(ios).ready.Done? && !SendIo(ios).accepts)))
    || (Sent(s, ios) && Stage(s) <= 1 && FlushIo(s, ios).flush.Failed?)
    || (Flushed(s, ios) && Reads(s) && (ReadIo(s, ios).next.NextFailed? || ReadIo(s, ios).next.EndOfStream?))
  }

  /** The message that is read in the visit. */
  function Hears(s: SubstreamState, ios: seq<Io>): Option<PeerMessage> {
    if Flushed(s, ios) && Reads(s) && ReadIo(s, ios).next.Message? then Some(ReadIo(s, ios).next.msg) else None
  }

  /** The stream after the visit: the message that was to be sent is sent, and the one that was heard is received. */
  function StreamAfter(s: SubstreamState, ios: seq<Io>): Stream
    requires Speaks(s)
  {
    var heard := Hears(s, ios);
    Stream(if heard.Some? then s.stream.got + [heard.value] else s.stream.got,
           if Stage(s) == 0 && Sent(s, ios) then s.stream.sent + [s.msg] else s.stream.sent)
  }

  // ---------------------------------------------------------------- what is reported

  /** The event that reports an answer: the payload of a piece, bit field or handshake, and an error for the rest. */
  predicate Reply(e: HandlerEvent, m: PeerMessage, user: UserData) {
    match e
    case GetPieceRes(piece, u) => m.Piece? && piece == m && u == user
    case BitfieldRes(bits, u) => m == Bitfield(bits) && u == user
    case HandshakeRes(h, u) => m == HandshakeMsg(h) && u == user
    case TorrentErr(error, data) =>
      !m.Piece? && !m.Bitfield? && !m.HandshakeMsg? && error == UnexpectedMessage(m) && data == Some(user)
    case _ => false
  }

  /** The event that reports a message of the remote: what the message says, and the identifier if the remote waits for
      an answer. */
  predicate Told(e: HandlerEvent, m: PeerMessage, id: ConnectionId) {
    match e
    case HandshakeReq(h, i) => m == HandshakeMsg(h) && i == id
    case BitfieldReq(bits, i) => m == Bitfield(bits) && i == id
    case GetPieceReq(r, i) => m == Request(r) && i == id
    case CancelPiece(r, i) => m == Cancel(r) && i == id
    case ChokeEvent(choked) => if choked then m == Choke else m == UnChoke
    case InterestEvent(interested) => if interested then m == Interested else m == NotInterested
    case HaveEvent(i) => m == Have(i)
    case KeepAliveEvent => m == KeepAlive
    case TorrentErr(error, data) => m.Piece? && error == UnexpectedMessage(m) && data == None
    case _ => false
  }

  /** A visit of an outbound substream with user data. */
  ghost predicate OutRight(s: SubstreamState, ios: seq<Io>, v: Visit)
    requires Speaks(s) && UserOf(s).Some?
  {
    var user := UserOf(s).value;
    if Breaks(s, ios) then v == Visit(None, Some(Custom(TorrentErr(IoError, Some(user)))))
    else match Hears(s, ios)
      case Some(m) =>
        if m.Port? then v.Crashed?
        else && v.Visit? && v.state == Some(OutClosing(StreamAfter(s, ios)))
             && v.event.Some? && v.event.value.Custom? && Reply(v.event.value.event, m, user)
      case None =>
        && v.Visit? && v.event.None? && v.state.Some? && Speaks(v.state.value) && !Inbound(v.state.value)
        && UserOf(v.state.value) == Some(user) && v.state.value.stream == StreamAfter(s, ios)
  }

  /** A visit of an outbound substream without user data reports nothing. */
  ghost predicate SilentRight(s: SubstreamState, ios: seq<Io>, v: Visit)
    requires Speaks(s)
  {
    && v.Visit? && v.event.None?
    && (Breaks(s, ios) ==> v.state.None?)
    && (!Breaks(s, ios) && !Flushed(s, ios) ==>
          && v.state.Some? && Speaks(v.state.value) && !Inbound(v.state.value) && UserOf(v.state.value).None?
          && v.state.value.stream == StreamAfter(s, ios))
    && (Flushed(s, ios) && v.state.Some? ==> v.state.value == OutClosing(StreamAfter(s, ios)))
  }

  /** A visit of an inbound substream that does not wait for the user. */
  ghost predicate InRight(s: SubstreamState, ios: seq<Io>, v: Visit)
    requires Speaks(s) && Inbound(s)
  {
    if Breaks(s, ios) then v == Visit(None, None)
    else match Hears(s, ios)
      case Some(m) =>
        if m.Port? then v.Crashed?
        else && v.Visit? && v.state == Some(InWaitingUser(s.id, StreamAfter(s, ios)))
             && v.event.Some? && v.event.value.Custom? && Told(v.event.value.event, m, s.id)
      case None =>
        && v.Visit? && v.event.None? && v.state.Some? && Speaks(v.state.value) && Inbound(v.state.value)
        && v.state.value.id == s.id && v.state.value.stream == StreamAfter(s, ios)
  }

  /** A visit of any substream. */
  ghost predicate VisitRight(s: SubstreamState, ios: seq<Io>, v: Visit) {
    if Speaks(s) then
      if Inbound(s) then InRight(s, ios, v)
      else if UserOf(s).Some? then OutRight(s, ios, v)
      else SilentRight(s, ios, v)
    else match s
      case OutPendingOpen(msg, data) => v == Visit(None, Some(OpenRequest(msg, data)))
      case OutReportError(error, user) => v == Visit(None, Some(Custom(TorrentErr(error, Some(user)))))
      case InWaitingUser(_, _) => v == Visit(Some(s), None)
      case _ => v.Visit? && v.event.None? && (v.state == Some(s) || v.state.None?)
  }

  // ---------------------------------------------------------------- one visit

  lemma ReplyExact(m: PeerMessage, user: UserData)
    ensures ProcessOut(m, user).None? <==> m.Port?
    ensures !m.Port? ==> Reply(ProcessOut(m, user).value, m, user)
  {
  }

  lemma ToldExactly(m: PeerMessage, id: ConnectionId)
    ensures ProcessIn(m, id).None? <==> m.Port?
    ensures !m.Port? ==> Told(ProcessIn(m, id).value, m, id)
  {
  }

  /** One turn of the visit. */
  lemma Turn(s: SubstreamState, ios: seq<Io>, k: nat)
    ensures var a := Advance(s, IoAt(ios, k));
            Settle(s, ios, k) == if a.Panicked? then Crashed
                                 else if a.state.Some? && a.event.None? && a.again
                                 then RankDecreases(s, IoAt(ios, k)); Settle(a.state.value, ios, k + 1)
                                 else Visit(a.state, a.event)
  {
    hide Advance;
  }

  /** Waiting for an answer. */
  lemma AnswerTurn(stream: Stream, user: UserData, ios: seq<Io>, k: nat)
    ensures var v, next := Settle(OutWaitingAnswer(stream, user), ios, k), IoAt(ios, k).next;
            match next
            case Message(m) =>
              if m.Port? then v.Crashed?
              else && v.Visit? && v.state == Some(OutClosing(stream.(got := stream.got + [m])))
                   && v.event.Some? && v.event.value.Custom? && Reply(v.event.value.event, m, user)
            case NextLater => v == Visit(Some(OutWaitingAnswer(stream, user)), None)
            case _ => v == Visit(None, Some(Custom(TorrentErr(IoError, Some(user)))))
  {
    Turn(OutWaitingAnswer(stream, user), ios, k);
    if IoAt(ios, k).next.Message? {
      ReplyExact(IoAt(ios, k).next.msg, user);
    }
    hide Settle, Reply, ProcessOut;
  }

  /** Waiting for a message of the remote. */
  lemma MessageTurn(id: ConnectionId, stream: Stream, ios: seq<Io>, k: nat)
    ensures var v, next := Settle(InWaitingMessage(id, stream), ios, k), IoAt(ios, k).next;
            match next
            case Message(m) =>
              if m.Port? then v.Crashed?
              else && v.Visit? && v.state == Some(InWaitingUser(id, stream.(got := stream.got + [m])))
                   && v.event.Some? && v.event.value.Custom? && Told(v.event.value.event, m, id)
            case NextLater => v == Visit(Some(InWaitingMessage(id, stream)), None)
            case _ => v == Visit(None, None)
  {
    Turn(InWaitingMessage(id, stream), ios, k);
    if IoAt(ios, k).next.Message? {
      ToldExactly(IoAt(ios, k).next.msg, id);
    }
    hide Settle, Told, ProcessIn;
  }

  lemma AnswerVisit(s: SubstreamState, ios: seq<Io>)
    requires !Inbound(s) && Speaks(s) && UserOf(s).Some?
    ensures OutRight(s, ios, Settle(s, ios, 0))
  {
    hide Settle, Reply;
    var user := UserOf(s).value;
    Turn(s, ios, 0);
    match s
    case OutPendingSend(stream, msg, data) =>
      var out := stream.(sent := stream.sent + [msg]);
      Turn(OutPendingFlush(out, data), ios, 1);
      AnswerTurn(out, user, ios, 2);
    case OutPendingFlush(stream, data) => AnswerTurn(stream, user, ios, 1);
    case OutWaitingAnswer(stream, _) => AnswerTurn(stream, user, ios, 0);
  }

  lemma SilentVisit(s: SubstreamState, ios: seq<Io>)
    requires !Inbound(s) && Speaks(s) && UserOf(s).None?
    ensures SilentRight(s, ios, Settle(s, ios, 0))
  {
    hide Settle;
    Turn(s, ios, 0);
    match s
    case OutPendingSend(stream, msg, data) =>
      var out := stream.(sent := stream.sent + [msg]);
      Turn(OutPendingFlush(out, data), ios, 1);
      Turn(OutClosing(out), ios, 2);
    case OutPendingFlush(stream, data) => Turn(OutClosing(stream), ios, 1);
  }

  lemma MessageVisit(s: SubstreamState, ios: seq<Io>)
    requires Inbound(s) && Speaks(s)
    ensures InRight(s, ios, Settle(s, ios, 0))
  {
    hide Settle, Told;
    Turn(s, ios, 0);
    match s
    case InPendingSend(id, stream, msg) =>
      var out := stream.(sent := stream.sent + [msg]);
      Turn(InPendingFlush(id, out), ios, 1);
      MessageTurn(id, out, ios, 2);
    case InPendingFlush(id, stream) => MessageTurn(id, stream, ios, 1);
    case InWaitingMessage(id, stream) => MessageTurn(id, stream, ios, 0);
  }

  /** Every visit, for every behaviour of the stream, does and reports what it should. */
  lemma VisitExact(s: SubstreamState, ios: seq<Io>)
    ensures VisitRight(s, ios, Settle(s, ios, 0))
  {
    hide OutRight, SilentRight, InRight;
    if !Speaks(s) {
      Turn(s, ios, 0);
    } else if Inbound(s) {
      MessageVisit(s, ios);
    } else if UserOf(s).Some? {
      AnswerVisit(s, ios);
    } else {
      SilentVisit(s, ios);
    }
  }

  // ---------------------------------------------------------------- one poll

  /** A visit has nothing to report: no message is read, nothing breaks that somebody waits for, and the substream is
      neither to be opened nor to report a failed dial. */
  predicate Silent(s: SubstreamState, ios: seq<Io>) {
    if Speaks(s) then Hears(s, ios).None? && !(Breaks(s, ios) && UserOf(s).Some?)
    else !s.OutPendingOpen? && !s.OutReportError?
  }

  /** The result of a poll that ends with a visit of the substream. */
  ghost predicate SaysOf(s: SubstreamState, ios: seq<Io>, r: PollResult) {
    exists v :: VisitRight(s, ios, v) && r == (if v.Crashed? then Crash
                                               else if v.event.Some? then Ready(v.event.value) else Pending)
  }

  /** A poll reports what the last substream of the vector that is not silent has to say, and nothing if all are
      silent. */
  ghost predicate PollRight(subs: seq<SubstreamState>, ios: seq<seq<Io>>, r: PollResult) {
    && (r.Pending? <==> forall k :: 0 <= k < |subs| ==> Silent(subs[k], IosAt(ios, k)))
    && forall j :: 0 <= j < |subs| && !Silent(subs[j], IosAt(ios, j))
                   && (forall k :: j < k < |subs| ==> Silent(subs[k], IosAt(ios, k))) ==>
         SaysOf(subs[j], IosAt(ios, j), r)
  }

  lemma SilentExact(s: SubstreamState, ios: seq<Io>)
    ensures var v := Settle(s, ios, 0); Silent(s, ios) <==> v.Visit? && v.event.None?
  {
    VisitExact(s, ios);
    NotBoth(s, ios);
    hide Settle, Hears, Breaks, Flushed, StreamAfter, Reply, Told;
  }

  lemma NotBoth(s: SubstreamState, ios: seq<Io>)
    ensures Breaks(s, ios) ==> Hears(s, ios).None?
    ensures !Reads(s) ==> Hears(s, ios).None?
  {
  }

  lemma {:induction false} VerdictExact(subs: seq<SubstreamState>, n: nat, ios: seq<seq<Io>>)
    requires n <= |subs|
    ensures PollRight(subs[..n], ios, Verdict(subs, n, ios))
    decreases n
  {
    hide Settle, Silent, SaysOf;
    if n > 0 {
      var last := subs[n - 1];
      var v, r := Settle(last, IosAt(ios, n - 1), 0), Verdict(subs, n, ios);
      SilentExact(last, IosAt(ios, n - 1));
      assert subs[..n][n - 1] == last;
      if v.Visit? && v.event.None? {
        VerdictExact(subs, n - 1, ios);
        OneMoreSilent(subs, n, ios, r);
      } else {
        LastSays(last, IosAt(ios, n - 1), r);
      }
    }
  }

  lemma LastSays(s: SubstreamState, ios: seq<Io>, r: PollResult)
    requires var v := Settle(s, ios, 0);
             r == if v.Crashed? then Crash else if v.event.Some? then Ready(v.event.value) else Pending
    ensures SaysOf(s, ios, r)
  {
    hide Settle, VisitRight;
    VisitExact(s, ios);
  }

  lemma OneMoreSilent(subs: seq<SubstreamState>, n: nat, ios: seq<seq<Io>>, r: PollResult)
    requires 0 < n <= |subs| && Silent(subs[n - 1], IosAt(ios, n - 1)) && PollRight(subs[..n - 1], ios, r)
    ensures PollRight(subs[..n], ios, r)
  {
    hide Silent, SaysOf;
    var a, b := subs[..n - 1], subs[..n];
    assert forall k :: 0 <= k < n - 1 ==> a[k] == b[k];
    assert b[n - 1] == subs[n - 1];
  }

  /** Every poll, for every vector and every behaviour of the streams. */
  lemma PollExact(s: Node, ios: seq<seq<Io>>)
    ensures PollRight(s.conn.subs, ios, Step(s, Poll(ios)).1)
  {
    hide PollRight, Shaped, Verdict;
    var subs := s.conn.subs;
    assert subs[..|subs|] == subs;
    VerdictExact(subs, |subs|, ios);
    ShapeVerdict(subs, ios);
  }

  lemma ShapeVerdict(subs: seq<SubstreamState>, ios: seq<seq<Io>>)
    ensures Sweep(subs, |subs|, ios).result == Verdict(subs, |subs|, ios)
  {
    hide Verdict, Sweep;
    SweepShape(subs, |subs|, ios);
  }
}
