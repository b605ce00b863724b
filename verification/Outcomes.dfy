/** What is sent, and what is reported for a request, over whole runs of a connection (src/handler.rs). */
module Outcomes {
  import opened Collections
  import opened Messages
  import opened Substreams
  import opened Handlers
  import opened Connections
  import opened Visits

  // ---------------------------------------------------------------- commands

  /** The command asks for the message to be sent on a new substream; the data is reported with the answer. */
  predicate Says(c: Command, msg: PeerMessage, data: Option<UserData>) {
    match msg
    case HandshakeMsg(h) => data.Some? && c == AskHandshake(h, data.value)
    case Bitfield(bits) => data.Some? && c == AskBitfield(bits, data.value)
    case Request(r) => data.Some? && c == AskPiece(r, data.value)
    case Choke => data.None? && c == SayChoke(true)
    case UnChoke => data.None? && c == SayChoke(false)
    case Interested => data.None? && c == SayInterest(true)
    case NotInterested => data.None? && c == SayInterest(false)
    case Have(i) => data.None? && c == SayHave(i)
    case KeepAlive => data.None? && c == SayKeepAlive
    case Cancel(r) => data.None? && c.CancelRequest? && c.request == r
    case _ => false
  }

  /** The command answers the request with the identifier. */
  predicate Replies(c: Command, id: ConnectionId, msg: PeerMessage) {
    match msg
    case HandshakeMsg(h) => c == AnswerHandshake(h, id)
    case Bitfield(bits) => c == AnswerBitfield(bits, id)
    case Piece(i, b, block) => c == AnswerPiece(i, b, block, id)
    case _ => false
  }

  /** The substream at `pos` waits for the user under the identifier. */
  predicate WaitsAt(subs: seq<SubstreamState>, pos: nat, id: ConnectionId) {
    pos < |subs| && subs[pos].InWaitingUser? && subs[pos].id == id
  }

  ghost predicate SomeoneWaits(subs: seq<SubstreamState>, id: ConnectionId) {
    exists pos: nat :: WaitsAt(subs, pos, id)
  }

  /** What a command does to the substreams. A command to cancel takes away the substream that waits under the
      identifier, and sends a Cancel only if there is none. */
  ghost predicate InjectRight(c: Conn, command: Command, c': Conn) {
    && c'.nextId == c.nextId
    && c'.keepAlive == (match command case Disconnect(hasTimeout) => if hasTimeout then Until else No
                                      case _ => c.keepAlive)
    && (forall msg, data :: Says(command, msg, data)
                            && !(command.CancelRequest? && SomeoneWaits(c.subs, command.id)) ==>
          c'.subs == c.subs + [OutPendingOpen(msg, data)])
    && (forall id, msg, pos: nat :: Replies(command, id, msg) && WaitsAt(c.subs, pos, id) ==>
          c'.subs == RemoveAt(c.subs, pos) + [InPendingSend(id, c.subs[pos].stream, msg)])
    && (forall id, msg :: Replies(command, id, msg) && !SomeoneWaits(c.subs, id) ==> c'.subs == c.subs)
    && (command.Reset? || command.CancelRequest? ==>
          forall pos: nat :: WaitsAt(c.subs, pos, command.id) ==> c'.subs == RemoveAt(c.subs, pos))
    && (command.Reset? && !SomeoneWaits(c.subs, command.id) ==> c'.subs == c.subs)
    && (command.Disconnect? ==> c'.subs == c.subs)
  }

  lemma OutgoingExact(c: Command, msg: PeerMessage, data: Option<UserData>)
    ensures !c.CancelRequest? ==> (Outgoing(c) == Some((msg, data)) <==> Says(c, msg, data))
  {
  }

  lemma AnswerExact(c: Command, id: ConnectionId, msg: PeerMessage)
    ensures Answer(c) == Some((msg, id)) <==> Replies(c, id, msg)
    ensures Answer(c).Some? ==> Outgoing(c).None? && !c.Reset? && !c.CancelRequest? && !c.Disconnect?
  {
  }

  /** The first that waits is the only one. */
  lemma WaitingIsThere(s: Node, id: ConnectionId)
    requires Inv(s)
    ensures var subs := s.conn.subs;
            var pos := WaitingAt(subs, id);
            && (pos < |subs| <==> SomeoneWaits(subs, id))
            && forall p: nat :: WaitsAt(subs, p, id) ==> p == pos
  {
    hide Inv;
    var subs := s.conn.subs;
    var pos := WaitingAt(subs, id);
    assert pos < |subs| ==> WaitsAt(subs, pos, id);
    forall p: nat | WaitsAt(subs, p, id)
      ensures p == pos
    {
      assert Waits(subs[p], id);
      WaitsUnique(s, id, p, pos);
    }
  }

  lemma SpokenRight(s: Node, command: Command)
    requires Inv(s) && Outgoing(command).Some?
    ensures InjectRight(s.conn, command, s.conn.Inject(command))
  {
    hide Inv;
    forall msg, data
      ensures Outgoing(command) == Some((msg, data)) <==> Says(command, msg, data)
    {
      OutgoingExact(command, msg, data);
    }
    assert forall id, msg :: !Replies(command, id, msg);
    hide Says, Replies;
  }

  lemma AnsweredRight(s: Node, command: Command)
    requires Inv(s) && Answer(command).Some?
    ensures InjectRight(s.conn, command, s.conn.Inject(command))
  {
    hide Inv;
    var (m, i) := Answer(command).value;
    WaitingIsThere(s, i);
    forall id: ConnectionId, msg
      ensures Replies(command, id, msg) <==> (msg, id) == (m, i)
    {
      AnswerExact(command, id, msg);
    }
    assert forall msg, data :: !Says(command, msg, data);
    hide Says, Replies, WaitsAt, SomeoneWaits;
  }

  /** Every command does what it should. */
  lemma InjectExact(s: Node, command: Command)
    requires Inv(s)
    ensures InjectRight(s.conn, command, s.conn.Inject(command))
  {
    if Outgoing(command).Some? {
      SpokenRight(s, command);
    } else if Answer(command).Some? {
      AnsweredRight(s, command);
    } else {
      assert forall id, msg :: !Replies(command, id, msg);
      assert forall msg, data :: Says(command, msg, data) ==> msg == Cancel(command.request) && data == None;
      if command.Reset? || command.CancelRequest? {
        WaitingIsThere(s, command.id);
      }
      hide Inv, Replies, WaitsAt, SomeoneWaits;
    }
  }

  // ---------------------------------------------------------------- where messages come from

  /** A command of the run asked for the message to be sent. */
  ghost predicate Asked(es: seq<Event>, msg: PeerMessage, data: Option<UserData>) {
    exists k :: 0 <= k < |es| && es[k].Inject? && Says(es[k].command, msg, data)
  }

  /** A command of the run answered with the message. */
  ghost predicate Answered(es: seq<Event>, id: ConnectionId, msg: PeerMessage) {
    exists k :: 0 <= k < |es| && es[k].Inject? && Replies(es[k].command, id, msg)
  }

  /** An event of the run is the failure to open a substream for a request with the data. */
  ghost predicate DialFailed(es: seq<Event>, user: UserData) {
    exists k :: 0 <= k < |es| && FailsToOpen(Run(NEW_NODE, es[..k]).0, es[k], user)
  }

  predicate FailsToOpen(s: Node, e: Event, user: UserData) {
    e.OutboundFailed? && e.k < |s.opening| && s.opening[e.k].1 == Some(user)
  }

  /** What the substream has sent or is about to send was asked for in the run, with the data it carries, and all that
      an inbound one has sent was given as an answer under its identifier. */
  ghost predicate Rooted(s: SubstreamState, es: seq<Event>) {
    match s
    case OutPendingOpen(msg, data) => Asked(es, msg, data)
    case OutPendingSend(stream, msg, data) => stream == NEW_STREAM && Asked(es, msg, data)
    case OutPendingFlush(stream, data) => stream.got == [] && |stream.sent| == 1 && Asked(es, stream.sent[0], data)
    case OutWaitingAnswer(stream, user) =>
      stream.got == [] && |stream.sent| == 1 && Asked(es, stream.sent[0], Some(user))
    case OutReportError(error, user) => error == Upgrade && DialFailed(es, user)
    case OutClosing(stream) => |stream.sent| == 1 && exists data :: Asked(es, stream.sent[0], data)
    case InWaitingMessage(id, stream) => AllAnswered(es, id, stream.sent)
    case InWaitingUser(id, stream) => AllAnswered(es, id, stream.sent)
    case InPendingSend(id, stream, msg) => AllAnswered(es, id, stream.sent + [msg])
    case InPendingFlush(id, stream) => AllAnswered(es, id, stream.sent)
    case InClosing(_) => true
  }

  ghost predicate AllAnswered(es: seq<Event>, id: ConnectionId, sent: seq<PeerMessage>) {
    forall k :: 0 <= k < |sent| ==> Answered(es, id, sent[k])
  }

  ghost predicate AllRooted(s: Node, es: seq<Event>) {
    && SubsRooted(s.conn.subs, es)
    && OpeningRooted(s.opening, es)
  }

  lemma AskedLater(es: seq<Event>, e: Event, msg: PeerMessage, data: Option<UserData>)
    ensures Asked(es, msg, data) ==> Asked(es + [e], msg, data)
    ensures e.Inject? && Says(e.command, msg, data) ==> Asked(es + [e], msg, data)
  {
    hide Says;
    var all := es + [e];
    if k :| 0 <= k < |es| && es[k].Inject? && Says(es[k].command, msg, data) {
      assert all[k].Inject? && Says(all[k].command, msg, data);
    }
    if e.Inject? && Says(e.command, msg, data) {
      assert all[|es|].Inject? && Says(all[|es|].command, msg, data);
    }
  }

  lemma AnsweredLater(es: seq<Event>, e: Event, id: ConnectionId, msg: PeerMessage)
    ensures Answered(es, id, msg) ==> Answered(es + [e], id, msg)
    ensures e.Inject? && Replies(e.command, id, msg) ==> Answered(es + [e], id, msg)
  {
    hide Replies;
    var all := es + [e];
    if k :| 0 <= k < |es| && es[k].Inject? && Replies(es[k].command, id, msg) {
      assert all[k].Inject? && Replies(all[k].command, id, msg);
    }
    if e.Inject? && Replies(e.command, id, msg) {
      assert all[|es|].Inject? && Replies(all[|es|].command, id, msg);
    }
  }

  lemma FailedLater(es: seq<Event>, e: Event, user: UserData)
    ensures DialFailed(es, user) ==> DialFailed(es + [e], user)
    ensures FailsToOpen(Run(NEW_NODE, es).0, e, user) ==> DialFailed(es + [e], user)
  {
    hide Run, FailsToOpen;
    var all := es + [e];
    if k :| 0 <= k < |es| && FailsToOpen(Run(NEW_NODE, es[..k]).0, es[k], user) {
      assert all[..k] == es[..k] && FailsToOpen(Run(NEW_NODE, all[..k]).0, all[k], user);
    }
    if FailsToOpen(Run(NEW_NODE, es).0, e, user) {
      assert all[..|es|] == es && FailsToOpen(Run(NEW_NODE, all[..|es|]).0, all[|es|], user);
    }
  }

  lemma RootedLater(s: SubstreamState, es: seq<Event>, e: Event)
    requires Rooted(s, es)
    ensures Rooted(s, es + [e])
  {
    hide Asked, Answered, DialFailed;
    forall msg, data
      ensures Asked(es, msg, data) ==> Asked(es + [e], msg, data)
    {
      AskedLater(es, e, msg, data);
    }
    forall id: ConnectionId, msg
      ensures Answered(es, id, msg) ==> Answered(es + [e], id, msg)
    {
      AnsweredLater(es, e, id, msg);
    }
    if s.OutReportError? {
      FailedLater(es, e, s.user);
    }
  }

  lemma AdvanceKeepsRooted(s: SubstreamState, io: Io, es: seq<Event>)
    requires Rooted(s, es)
    ensures var a := Advance(s, io);
            && (a.Advanced? && a.state.Some? ==> Rooted(a.state.value, es))
            && (a.Advanced? && a.event.Some? && a.event.value.OpenRequest? ==>
                  Asked(es, a.event.value.msg, a.event.value.data))
  {
    hide Asked, Answered, DialFailed, ProcessIn, ProcessOut;
  }

  /** A visit keeps this. */
  lemma {:induction false} VisitKeepsRooted(s: SubstreamState, ios: seq<Io>, k: nat, es: seq<Event>)
    requires Rooted(s, es)
    ensures var v := Settle(s, ios, k);
            && (v.Visit? && v.state.Some? ==> Rooted(v.state.value, es))
            && (v.Visit? && v.event.Some? && v.event.value.OpenRequest? ==>
                  Asked(es, v.event.value.msg, v.event.value.data))
    decreases Rank(s)
  {
    hide Advance, Rooted, Asked;
    AdvanceKeepsRooted(s, IoAt(ios, k), es);
    var a := Advance(s, IoAt(ios, k));
    if a.Advanced? && a.state.Some? && a.event.None? && a.again {
      RankDecreases(s, IoAt(ios, k));
      VisitKeepsRooted(a.state.value, ios, k + 1, es);
    }
  }

  ghost predicate SubsRooted(subs: seq<SubstreamState>, es: seq<Event>) {
    forall i :: 0 <= i < |subs| ==> Rooted(subs[i], es)
  }

  lemma RequeueKeepsRooted(subs: seq<SubstreamState>, k: nat, state: Option<SubstreamState>, es: seq<Event>)
    requires k < |subs| && SubsRooted(subs, es) && (state.Some? ==> Rooted(state.value, es))
    ensures SubsRooted(Requeue(subs, k, state), es)
  {
    hide Rooted;
  }

  lemma {:induction false} SweepKeepsRooted(subs: seq<SubstreamState>, n: nat, ios: seq<seq<Io>>, es: seq<Event>)
    requires n <= |subs| && SubsRooted(subs, es)
    ensures var r := Sweep(subs, n, ios);
            && SubsRooted(r.subs, es)
            && (r.result.Ready? && r.result.event.OpenRequest? ==>
                  Asked(es, r.result.event.msg, r.result.event.data))
    decreases n
  {
    hide Settle, Rooted, Asked, SwapRemove;
    if n > 0 {
      var k := n - 1;
      var v := Settle(subs[k], IosAt(ios, k), 0);
      VisitKeepsRooted(subs[k], IosAt(ios, k), 0, es);
      RequeueKeepsRooted(subs, k, if v.Visit? then v.state else None, es);
      hide SubsRooted;
      if v.Visit? && v.event.None? {
        SweepKeepsRooted(Requeue(subs, k, v.state), k, ios, es);
      }
    }
  }

  lemma SubsRootedLater(subs: seq<SubstreamState>, es: seq<Event>, e: Event)
    requires SubsRooted(subs, es)
    ensures SubsRooted(subs, es + [e])
  {
    hide Rooted;
    forall i | 0 <= i < |subs|
      ensures Rooted(subs[i], es + [e])
    {
      RootedLater(subs[i], es, e);
    }
  }

  lemma PushRooted(subs: seq<SubstreamState>, s: SubstreamState, es: seq<Event>)
    requires SubsRooted(subs, es) && Rooted(s, es)
    ensures SubsRooted(subs + [s], es)
  {
    hide Rooted;
  }

  lemma RemoveRooted(subs: seq<SubstreamState>, pos: nat, es: seq<Event>)
    requires SubsRooted(subs, es) && pos < |subs|
    ensures SubsRooted(RemoveAt(subs, pos), es) && Rooted(subs[pos], es)
  {
    hide Rooted;
    RemoveAtIndex(subs, pos);
  }

  lemma ReplyIsRooted(s: SubstreamState, msg: PeerMessage, es: seq<Event>)
    requires s.InWaitingUser? && Rooted(s, es) && Answered(es, s.id, msg)
    ensures Rooted(InPendingSend(s.id, s.stream, msg), es)
  {
    hide Answered;
  }

  lemma InjectKeepsRooted(c: Conn, command: Command, es: seq<Event>)
    requires SubsRooted(c.subs, es)
    ensures SubsRooted(c.Inject(command).subs, es + [Inject(command)])
  {
    var e := Inject(command);
    var all := es + [e];
    SubsRootedLater(c.subs, es, e);
    if Outgoing(command).Some? {
      var (msg, data) := Outgoing(command).value;
      assert Says(command, msg, data);
      AskedLater(es, e, msg, data);
      PushRooted(c.subs, OutPendingOpen(msg, data), all);
    } else if Answer(command).Some? {
      var (msg, id) := Answer(command).value;
      var pos := WaitingAt(c.subs, id);
      if pos < |c.subs| {
        assert Replies(command, id, msg);
        AnsweredLater(es, e, id, msg);
        RemoveRooted(c.subs, pos, all);
        ReplyIsRooted(c.subs[pos], msg, all);
        PushRooted(RemoveAt(c.subs, pos), InPendingSend(id, c.subs[pos].stream, msg), all);
      }
    } else if command.Reset? || command.CancelRequest? {
      var pos := WaitingAt(c.subs, command.id);
      if pos < |c.subs| {
        RemoveRooted(c.subs, pos, all);
      } else if command.CancelRequest? {
        assert Says(command, Cancel(command.request), None);
        AskedLater(es, e, Cancel(command.request), None);
        PushRooted(c.subs, OutPendingOpen(Cancel(command.request), None), all);
      }
    }
  }

  ghost predicate OpeningRooted(opening: seq<OpenInfo>, es: seq<Event>) {
    forall i :: 0 <= i < |opening| ==> Asked(es, opening[i].0, opening[i].1)
  }

  lemma OpeningRootedLater(opening: seq<OpenInfo>, es: seq<Event>, e: Event)
    requires OpeningRooted(opening, es)
    ensures OpeningRooted(opening, es + [e])
  {
    hide Asked;
    forall i | 0 <= i < |opening|
      ensures Asked(es + [e], opening[i].0, opening[i].1)
    {
      AskedLater(es, e, opening[i].0, opening[i].1);
    }
  }

  lemma DialKeepsRooted(es: seq<Event>, e: Event)
    requires AllRooted(Run(NEW_NODE, es).0, es) && (e.OutboundOpened? || e.OutboundFailed?)
    ensures AllRooted(Step(Run(NEW_NODE, es).0, e).0, es + [e])
  {
    hide Run, Rooted, Asked, DialFailed;
    var s := Run(NEW_NODE, es).0;
    SubsRootedLater(s.conn.subs, es, e);
    OpeningRootedLater(s.opening, es, e);
    if e.k < |s.opening| {
      var (msg, data) := s.opening[e.k];
      RemoveAtIndex(s.opening, e.k);
      assert Asked(es + [e], msg, data);
      assert Rooted(OutPendingSend(NEW_STREAM, msg, data), es + [e]) by { NewIsRooted(es + [e], msg, data); }
      PushRooted(s.conn.subs, OutPendingSend(NEW_STREAM, msg, data), es + [e]);
      if e.OutboundFailed? && data.Some? {
        FailedLater(es, e, data.value);
        ErrorIsRooted(es + [e], data.value);
        PushRooted(s.conn.subs, OutReportError(Upgrade, data.value), es + [e]);
      }
    }
  }

  lemma NewIsRooted(es: seq<Event>, msg: PeerMessage, data: Option<UserData>)
    requires Asked(es, msg, data)
    ensures Rooted(OutPendingSend(NEW_STREAM, msg, data), es)
  {
  }

  lemma ErrorIsRooted(es: seq<Event>, user: UserData)
    requires DialFailed(es, user)
    ensures Rooted(OutReportError(Upgrade, user), es)
  {
  }

  lemma InboundIsRooted(es: seq<Event>, id: ConnectionId)
    ensures Rooted(InWaitingMessage(id, NEW_STREAM), es)
  {
  }

  lemma StepKeepsRooted(es: seq<Event>, e: Event)
    requires AllRooted(Run(NEW_NODE, es).0, es)
    ensures AllRooted(Step(Run(NEW_NODE, es).0, e).0, es + [e])
  {
    hide Run, Rooted, Asked, DialFailed;
    var s := Run(NEW_NODE, es).0;
    SubsRootedLater(s.conn.subs, es, e);
    OpeningRootedLater(s.opening, es, e);
    match e
    case Inject(c) => InjectKeepsRooted(s.conn, c, es);
    case InboundOpened =>
      InboundIsRooted(es + [e], s.conn.nextId);
      PushRooted(s.conn.subs, InWaitingMessage(s.conn.nextId, NEW_STREAM), es + [e]);
    case OutboundOpened(k) => DialKeepsRooted(es, e);
    case OutboundFailed(k) => DialKeepsRooted(es, e);
    case Poll(ios) =>
      hide Sweep;
      SweepKeepsRooted(s.conn.subs, |s.conn.subs|, ios, es + [e]);
  }

  lemma {:induction false} StepOf(s: Node, es: seq<Event>, i: nat)
    requires i < |es|
    ensures (Run(s, es[..i + 1]).0, Run(s, es).1[i]) == Step(Run(s, es[..i]).0, es[i])
    decreases |es|
  {
    hide Step;
    if i == 0 {
      assert es[..0] == [] && es[..1] == [es[0]] && [es[0]][1..] == [];
    } else {
      StepOf(Step(s, es[0]).0, es[1..], i - 1);
      assert es[1..][..i - 1] == es[..i][1..] && es[1..][..i] == es[..i + 1][1..];
    }
  }

  /** Whatever is sent in a run was asked for, or given as an answer, by a command of the run. */
  lemma {:induction false} RootedOverRuns(es: seq<Event>, i: nat)
    requires i <= |es|
    ensures AllRooted(Run(NEW_NODE, es[..i]).0, es[..i])
  {
    hide AllRooted, Step;
    if i == 0 {
      assert es[..0] == [];
      NothingRooted();
    } else {
      RootedOverRuns(es, i - 1);
      StepKeepsRooted(es[..i - 1], es[i - 1]);
      StepOf(NEW_NODE, es, i - 1);
      assert es[..i] == es[..i - 1] + [es[i - 1]];
    }
  }

  lemma NothingRooted()
    ensures AllRooted(Run(NEW_NODE, []).0, [])
  {
  }

  // ---------------------------------------------------------------- what is reported

  /** The message of an outbound substream: sent, or to be sent. */
  function MessageOf(s: SubstreamState): PeerMessage
    requires Speaks(s) && !Inbound(s) && (s.OutPendingSend? || s.stream.sent != [])
  {
    if s.OutPendingSend? then s.msg else s.stream.sent[0]
  }

  /** Why the event reports the user data, seen from the substream that the poll came to: the dial failed, the stream
      broke, or a message came. */
  ghost predicate Cause(s: SubstreamState, ios: seq<Io>, event: HandlerEvent, user: UserData, es: seq<Event>) {
    if s.OutReportError? then event == TorrentErr(Upgrade, Some(user)) && DialFailed(es, user)
    else
      && Speaks(s) && !Inbound(s) && (s.OutPendingSend? || s.stream.sent != []) && UserOf(s) == Some(user)
      && Asked(es, MessageOf(s), Some(user))
      && if Breaks(s, ios) then event == TorrentErr(IoError, Some(user))
         else Hears(s, ios).Some? && Reply(event, Hears(s, ios).value, user)
  }

  lemma VisitCause(s: SubstreamState, ios: seq<Io>, v: Visit, user: UserData, es: seq<Event>)
    requires VisitRight(s, ios, v) && Rooted(s, es)
    requires v.Visit? && v.event.Some? && v.event.value.Custom? && user in Reports(v.event.value.event)
    ensures Cause(s, ios, v.event.value.event, user, es)
  {
    hide Asked, DialFailed, Answered, Breaks, Hears, Flushed, StreamAfter;
  }

  lemma {:induction false} LastNoisy(subs: seq<SubstreamState>, ios: seq<seq<Io>>, n: nat) returns (j: nat)
    requires n <= |subs| && exists k :: 0 <= k < n && !Silent(subs[k], IosAt(ios, k))
    ensures j < n && !Silent(subs[j], IosAt(ios, j)) && forall k :: j < k < n ==> Silent(subs[k], IosAt(ios, k))
    decreases n
  {
    hide Silent;
    if Silent(subs[n - 1], IosAt(ios, n - 1)) {
      j := LastNoisy(subs, ios, n - 1);
    } else {
      j := n - 1;
    }
  }

  /** Output `i` of the run reports the user data. */
  ghost predicate ReportsData(es: seq<Event>, i: nat, user: UserData) {
    && i < |es|
    && var r := Run(NEW_NODE, es).1[i];
       r.Ready? && r.event.Custom? && user in Reports(r.event.event)
  }

  /** In every run of a new handler: a report for a request tells what happened to it. A command of the run asked for
      the message that its substream sent; the report is the payload of the answer that came on that substream, or an
      error, and an error if and only if the dial failed, sending, flushing or reading failed, the stream ended, or a
      message came that is no answer. */
  lemma OutcomeOverRuns(es: seq<Event>, i: nat, user: UserData) returns (j: nat)
    requires ReportsData(es, i, user)
    ensures es[i].Poll? && j < |Run(NEW_NODE, es[..i]).0.conn.subs|
    ensures var s := Run(NEW_NODE, es[..i]).0.conn.subs[j];
            Cause(s, IosAt(es[i].ios, j), Run(NEW_NODE, es).1[i].event.event, user, es[..i])
  {
    hide Run, Reports, Cause, Rooted, Silent;
    StepOf(NEW_NODE, es, i);
    RootedOverRuns(es, i);
    var s := Run(NEW_NODE, es[..i]).0;
    var ios := es[i].ios;
    PollExact(s, ios);
    j := LastNoisy(s.conn.subs, ios, |s.conn.subs|);
    var r := Run(NEW_NODE, es).1[i];
    var v :| VisitRight(s.conn.subs[j], IosAt(ios, j), v)
             && r == (if v.Crashed? then Crash else if v.event.Some? then Ready(v.event.value) else Pending);
    VisitCause(s.conn.subs[j], IosAt(ios, j), v, user, es[..i]);
  }

  /** In every run of a new handler every poll reports what it should. One that has nothing to report keeps the
      connection alive as long as substreams are left. */
  lemma PollsOverRuns(es: seq<Event>, i: nat)
    requires i < |es| && es[i].Poll?
    ensures var s, s', r := Run(NEW_NODE, es[..i]).0, Run(NEW_NODE, es[..i + 1]).0, Run(NEW_NODE, es).1[i];
            && PollRight(s.conn.subs, es[i].ios, r)
            && s'.conn.nextId == s.conn.nextId
            && (if r.Pending? then s'.conn.keepAlive == (if s'.conn.subs == [] then Until else Yes)
                else s'.conn.keepAlive == s.conn.keepAlive)
  {
    hide Run, PollRight, Sweep;
    StepOf(NEW_NODE, es, i);
    PollExact(Run(NEW_NODE, es[..i]).0, es[i].ios);
  }

  /** In every run of a new handler without a panic every command does what it should. */
  lemma CommandsOverRuns(es: seq<Event>, i: nat)
    requires i < |es| && es[i].Inject? && NoCrash(Run(NEW_NODE, es[..i]).1)
    ensures InjectRight(Run(NEW_NODE, es[..i]).0.conn, es[i].command, Run(NEW_NODE, es[..i + 1]).0.conn)
  {
    hide Run, Inv, InjectRight;
    StepOf(NEW_NODE, es, i);
    NewIsFine();
    InvariantOverRuns(NEW_NODE, es[..i]);
    InjectExact(Run(NEW_NODE, es[..i]).0, es[i].command);
  }
}
