/** The handler of one connection: commands, negotiated substreams and the sweep of `poll`
    (src/handler.rs). */
module Handlers {
  import opened Collections
  import opened Messages
  import opened Substreams

  datatype KeepAliveState = Yes | No | Until

  /** `BitTorrentHandlerIn`. */
  datatype Command =
    | Disconnect(hasTimeout: bool)
    | Reset(id: ConnectionId)
    | AskHandshake(handshake: Handshake, user: UserData)
    | AskBitfield(bits: seq<bool>, user: UserData)
    | AskPiece(request: PeerRequest, user: UserData)
    | SayChoke(choked: bool)
    | SayInterest(interested: bool)
    | SayHave(have: U32)
    | SayKeepAlive
    | AnswerHandshake(handshake: Handshake, id: ConnectionId)
    | AnswerBitfield(bits: seq<bool>, id: ConnectionId)
    | AnswerPiece(index: U32, begin: U32, block: Bytes, id: ConnectionId)
    | CancelRequest(request: PeerRequest, id: ConnectionId)

  /** A new outbound message, with user data if an answer is expected. */
  function Outgoing(c: Command): Option<(PeerMessage, Option<UserData>)> {
    match c
    case AskHandshake(h, user) => Some((HandshakeMsg(h), Some(user)))
    case AskBitfield(bits, user) => Some((Bitfield(bits), Some(user)))
    case AskPiece(r, user) => Some((Request(r), Some(user)))
    case SayChoke(choked) => Some((if choked then Choke else UnChoke, None))
    case SayInterest(interested) => Some((if interested then Interested else NotInterested, None))
    case SayHave(i) => Some((Have(i), None))
    case SayKeepAlive => Some((KeepAlive, None))
    case _ => None
  }

  /** An answer to a request of the remote. */
  function Answer(c: Command): Option<(PeerMessage, ConnectionId)> {
    match c
    case AnswerHandshake(h, id) => Some((HandshakeMsg(h), id))
    case AnswerBitfield(bits, id) => Some((Bitfield(bits), id))
    case AnswerPiece(i, b, block, id) => Some((Piece(i, b, block), id))
    case _ => None
  }

  predicate Waits(s: SubstreamState, id: ConnectionId) {
    s.InWaitingUser? && s.id == id
  }

  /** The first substream that waits for the user under the identifier. */
  function WaitingAt(subs: seq<SubstreamState>, id: ConnectionId): (i: nat)
    ensures i <= |subs| && (i < |subs| ==> Waits(subs[i], id))
    ensures forall j :: 0 <= j < i ==> !Waits(subs[j], id)
  {
    if subs == [] || Waits(subs[0], id) then 0 else 1 + WaitingAt(subs[1..], id)
  }

  /** The outcome of a poll. */
  datatype PollResult = Pending | Ready(event: PollEvent) | Crash

  datatype Swept = Swept(subs: seq<SubstreamState>, result: PollResult)

  /** The loop of `poll`: positions `n - 1` down to 0, each taken out with `swap_remove` and put back at
      the end if it survives. `ios[k]` are the stream answers met when position `k` is visited. */
  function Sweep(subs: seq<SubstreamState>, n: nat, ios: seq<seq<Io>>): Swept
    requires n <= |subs|
    decreases n
  {
    if n == 0 then Swept(subs, Pending)
    else
      var k := n - 1;
      var rest := SwapRemove(subs, k);
      match Settle(subs[k], IosAt(ios, k), 0)
      case Crashed => Swept(rest, Crash)
      case Visit(state, event) =>
        var subs' := if state.Some? then rest + [state.value] else rest;
        if event.Some? then Swept(subs', Ready(event.value)) else Sweep(subs', k, ios)
  }

  function IosAt(ios: seq<seq<Io>>, k: nat): seq<Io> {
    if k < |ios| then ios[k] else []
  }

  /** The fields of a handler as a value. */
  datatype Conn = Conn(subs: seq<SubstreamState>, nextId: ConnectionId, keepAlive: KeepAliveState) {
    function Inject(c: Command): Conn {
      if Outgoing(c).Some? then
        var (msg, data) := Outgoing(c).value;
        this.(subs := subs + [OutPendingOpen(msg, data)])
      else if Answer(c).Some? then
        var (msg, id) := Answer(c).value;
        var pos := WaitingAt(subs, id);
        if pos < |subs| then this.(subs := RemoveAt(subs, pos) + [InPendingSend(id, subs[pos].stream, msg)]) else this
      else match c
        case Reset(id) =>
          var pos := WaitingAt(subs, id);
          if pos < |subs| then this.(subs := RemoveAt(subs, pos)) else this
        case CancelRequest(request, id) =>
          var pos := WaitingAt(subs, id);
          if pos < |subs| then this.(subs := RemoveAt(subs, pos))
          else this.(subs := subs + [OutPendingOpen(Cancel(request), None)])
        case Disconnect(hasTimeout) => this.(keepAlive := if hasTimeout then Until else No)
        case _ => this
    }

    function NegotiatedInbound(): Conn {
      this.(subs := subs + [InWaitingMessage(nextId, NEW_STREAM)], nextId := nextId + 1)
    }

    function NegotiatedOutbound(msg: PeerMessage, data: Option<UserData>): Conn {
      this.(subs := subs + [OutPendingSend(NEW_STREAM, msg, data)])
    }

    function DialError(data: Option<UserData>): Conn {
      if data.Some? then this.(subs := subs + [OutReportError(Upgrade, data.value)]) else this
    }

    function Poll(ios: seq<seq<Io>>): (Conn, PollResult) {
      var swept := Sweep(subs, |subs|, ios);
      var c := this.(subs := swept.subs);
      (if swept.result.Pending? then c.(keepAlive := if swept.subs == [] then Until else Yes) else c, swept.result)
    }
  }

  // ---------------------------------------------------------------- the handler

  class BitTorrentHandler {
    var substreams: seq<SubstreamState>
    var keepAlive: KeepAliveState
    var nextConnecUniqueId: ConnectionId

    ghost function Model(): Conn
      reads this
    {
      Conn(substreams, nextConnecUniqueId, keepAlive)
    }

    constructor ()
      ensures Model() == Conn([], 0, Yes)
    {
      substreams, keepAlive, nextConnecUniqueId := [], Yes, 0;
    }

    method InjectFullyNegotiatedInbound()
      modifies this
      ensures Model() == old(Model()).NegotiatedInbound()
    {
      var id := nextConnecUniqueId;
      nextConnecUniqueId := nextConnecUniqueId + 1;
      substreams := substreams + [InWaitingMessage(id, NEW_STREAM)];
    }

    method InjectFullyNegotiatedOutbound(msg: PeerMessage, data: Option<UserData>)
      modifies this
      ensures Model() == old(Model()).NegotiatedOutbound(msg, data)
    {
      substreams := substreams + [OutPendingSend(NEW_STREAM, msg, data)];
    }

    method InjectDialUpgradeError(data: Option<UserData>)
      modifies this
      ensures Model() == old(Model()).DialError(data)
    {
      if data.Some? {
        substreams := substreams + [OutReportError(Upgrade, data.value)];
      }
    }

    method Queue(msg: PeerMessage, data: Option<UserData>)
      modifies this
      ensures Model() == old(Model()).(subs := old(substreams) + [OutPendingOpen(msg, data)])
    {
      substreams := substreams + [OutPendingOpen(msg, data)];
    }

    method Reply(msg: PeerMessage, id: ConnectionId)
      modifies this
      ensures var pos := WaitingAt(old(substreams), id);
              Model() == if pos < |old(substreams)|
                         then old(Model()).(subs := RemoveAt(old(substreams), pos)
                                                    + [InPendingSend(id, old(substreams)[pos].stream, msg)])
                         else old(Model())
    {
      var pos := WaitingAt(substreams, id);
      if pos < |substreams| {
        var stream := substreams[pos].stream;
        substreams := RemoveAt(substreams, pos);
        substreams := substreams + [InPendingSend(id, stream, msg)];
      }
    }

    method InjectEvent(c: Command)
      modifies this
      ensures Model() == old(Model()).Inject(c)
    {
      hide WaitingAt, RemoveAt;
      match c {
        case Disconnect(hasTimeout) => keepAlive := if hasTimeout then Until else No;
        case Reset(id) =>
          var pos := WaitingAt(substreams, id);
          if pos < |substreams| {
            substreams := RemoveAt(substreams, pos);
          }
        case AskHandshake(handshake, user) => Queue(HandshakeMsg(handshake), Some(user));
        case AskBitfield(bits, user) => Queue(Bitfield(bits), Some(user));
        case AskPiece(request, user) => Queue(Request(request), Some(user));
        case SayChoke(choked) => Queue(if choked then Choke else UnChoke, None);
        case SayInterest(interested) => Queue(if interested then Interested else NotInterested, None);
        case SayHave(have) => Queue(Have(have), None);
        case SayKeepAlive => Queue(KeepAlive, None);
        case AnswerHandshake(handshake, id) => Reply(HandshakeMsg(handshake), id);
        case AnswerBitfield(bits, id) => Reply(Bitfield(bits), id);
        case AnswerPiece(index, begin, block, id) => Reply(Piece(index, begin, block), id);
        case CancelRequest(request, id) =>
          var pos := WaitingAt(substreams, id);
          if pos < |substreams| {
            substreams := RemoveAt(substreams, pos);
          } else {
            Queue(Cancel(request), None);
          }
      }
    }

    /** The inner loop: poll one substream again as long as it asks for it. */
    method Visit(first: SubstreamState, ios: seq<Io>) returns (v: Substreams.Visit)
      ensures v == Settle(first, ios, 0)
    {
      var substream, calls := first, 0;
      while true
        invariant Settle(first, ios, 0) == Settle(substream, ios, calls)
        decreases Rank(substream)
      {
        var a := Advance(substream, IoAt(ios, calls));
        if a.Panicked? {
          return Crashed;
        }
        if a.state.None? || a.event.Some? || !a.again {
          return Substreams.Visit(a.state, a.event);
        }
        RankDecreases(substream, IoAt(ios, calls));
        substream := a.state.value;
        calls := calls + 1;
      }
    }

    /** The sweep never indexes outside the vector although the vector shrinks and grows under it. */
    method Poll(ios: seq<seq<Io>>) returns (result: PollResult)
      modifies this
      ensures (Model(), result) == old(Model()).Poll(ios)
    {
      var n := |substreams|;
      while n > 0
        invariant 0 <= n <= |substreams|
        invariant nextConnecUniqueId == old(nextConnecUniqueId) && keepAlive == old(keepAlive)
        invariant Sweep(substreams, n, ios) == Sweep(old(substreams), |old(substreams)|, ios)
      {
        n := n - 1;
        var substream := substreams[n];
        substreams := SwapRemove(substreams, n);
        var v := Visit(substream, IosAt(ios, n));
        if v.Crashed? {
          return Crash;
        }
        if v.state.Some? {
          substreams := substreams + [v.state.value];
        }
        if v.event.Some? {
          return Ready(v.event.value);
        }
      }
      keepAlive := if substreams == [] then Until else Yes;
      return Pending;
    }
  }
}
