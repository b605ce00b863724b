/** Inbound substreams that wait for the user of the handler: what moves them, what the user is told, and exactly when
    they wait for good (src/handler.rs). */
module Waiting {
  import opened Collections
  import opened Messages
  import opened Substreams
  import opened Handlers
  import opened Connections

  // ---------------------------------------------------------------- waiting for the user

  /** The waiting substream that a command is about. */
  function Subject(c: Command): Option<ConnectionId> {
    match c
    case Reset(id) => Some(id)
    case AnswerHandshake(_, id) => Some(id)
    case AnswerBitfield(_, id) => Some(id)
    case AnswerPiece(_, _, _, id) => Some(id)
    case CancelRequest(_, id) => Some(id)
    case _ => None
  }

  predicate Names(e: Event, id: ConnectionId) {
    e.Inject? && Subject(e.command) == Some(id)
  }

  lemma StaysIn<T>(s: seq<T>, i: nat, x: T)
    requires i < |s| && x in s && x != s[i]
    ensures x in RemoveAt(s, i) && x in SwapRemove(s, i)
  {
    RemoveAtFacts(s, i);
    SwapRemoveFacts(s, i);
    assert x in multiset(s) - multiset{s[i]};
  }

  /** A sweep passes by a substream that waits for the user. */
  lemma {:induction false} SweepKeepsWaiting(subs: seq<SubstreamState>, n: nat, ios: seq<seq<Io>>, w: SubstreamState)
    requires n <= |subs| && w in subs && w.InWaitingUser?
    ensures w in Sweep(subs, n, ios).subs
    decreases n
  {
    hide Settle, SwapRemove;
    if n > 0 {
      var k := n - 1;
      var v := Settle(subs[k], IosAt(ios, k), 0);
      WaitingSettles(subs[k], IosAt(ios, k));
      if subs[k] != w {
        StaysIn(subs, k, w);
      }
      var rest := SwapRemove(subs, k);
      if v.Visit? && v.event.None? {
        SweepKeepsWaiting(if v.state.Some? then rest + [v.state.value] else rest, k, ios, w);
      }
    }
  }

  lemma WaitingSettles(s: SubstreamState, ios: seq<Io>)
    ensures s.InWaitingUser? ==> Settle(s, ios, 0) == Visit(Some(s), None)
  {
  }

  lemma InjectKeepsWaiting(c: Conn, command: Command, w: SubstreamState)
    requires w in c.subs && w.InWaitingUser? && !Names(Inject(command), w.id)
    ensures w in c.Inject(command).subs
  {
    hide RemoveAt, WaitingAt;
    if Subject(command).Some? {
      var pos := WaitingAt(c.subs, Subject(command).value);
      if pos < |c.subs| {
        StaysIn(c.subs, pos, w);
      }
    }
  }

  lemma StepKeepsWaiting(s: Node, e: Event, w: SubstreamState)
    requires w in s.conn.subs && w.InWaitingUser? && !Names(e, w.id)
    ensures w in Step(s, e).0.conn.subs
  {
    match e
    case Inject(c) =>
      hide Conn.Inject;
      InjectKeepsWaiting(s.conn, c, w);
    case Poll(ios) =>
      hide Sweep;
      SweepKeepsWaiting(s.conn.subs, |s.conn.subs|, ios, w);
    case _ =>
  }

  /** Over every run, a substream that waits for the user is moved only by a command that names its identifier. */
  lemma {:induction false} WaitsUntilNamed(s: Node, es: seq<Event>, w: SubstreamState)
    requires w in s.conn.subs && w.InWaitingUser? && forall e :: e in es ==> !Names(e, w.id)
    ensures w in Run(s, es).0.conn.subs
    decreases |es|
  {
    hide Step, Names;
    if es != [] {
      StepKeepsWaiting(s, es[0], w);
      WaitsUntilNamed(Step(s, es[0]).0, es[1..], w);
    }
  }

  // ---------------------------------------------------------------- what the user is told

  /** The event tells the user the identifier. */
  predicate Tells(event: HandlerEvent, id: ConnectionId) {
    match event
    case HandshakeReq(_, i) => i == id
    case BitfieldReq(_, i) => i == id
    case GetPieceReq(_, i) => i == id
    case CancelPiece(_, i) => i == id
    case _ => false
  }

  predicate TellsOut(r: PollResult, id: ConnectionId) {
    r.Ready? && r.event.Custom? && Tells(r.event.event, id)
  }

  /** A message received by substream `w` of which the last one put it where it is. */
  ghost predicate ArrivedWith(w: SubstreamState, event: Option<PollEvent>) {
    && w.InWaitingUser? && w.stream.got != []
    && var m := w.stream.got[|w.stream.got| - 1];
       ProcessIn(m, w.id).Some? && event == Some(Custom(ProcessIn(m, w.id).value))
  }

  lemma {:induction false} SettleArrives(s: SubstreamState, ios: seq<Io>, k: nat)
    requires !s.InWaitingUser?
    requires var v := Settle(s, ios, k); v.Visit? && v.state.Some? && v.state.value.InWaitingUser?
    ensures var v := Settle(s, ios, k); ArrivedWith(v.state.value, v.event)
    decreases Rank(s)
  {
    hide ProcessIn, ProcessOut;
    var io := IoAt(ios, k);
    var a := Advance(s, io);
    if a.Advanced? && a.state.Some? && a.event.None? && a.again {
      RankDecreases(s, io);
      SettleArrives(a.state.value, ios, k + 1);
    }
  }

  /** A poll that leaves a new substream waiting for the user reports the message that put it there. */
  lemma {:induction false} SweepArrives(subs: seq<SubstreamState>, n: nat, ios: seq<seq<Io>>, w: SubstreamState)
    requires n <= |subs| && w.InWaitingUser? && w !in subs && w in Sweep(subs, n, ios).subs
    ensures var r := Sweep(subs, n, ios).result; r.Ready? && ArrivedWith(w, Some(r.event))
    decreases n
  {
    hide Settle, SwapRemove, ArrivedWith;
    if n > 0 {
      var k := n - 1;
      var v := Settle(subs[k], IosAt(ios, k), 0);
      var rest := SwapRemove(subs, k);
      NothingNew(subs, k, w);
      WaitingSettles(subs[k], IosAt(ios, k));
      if v.Visit? {
        var next := if v.state.Some? then rest + [v.state.value] else rest;
        if v.state == Some(w) {
          SettleArrives(subs[k], IosAt(ios, k), 0);
          assert v.event.Some? by { ArrivalHasEvent(w, v.event); }
        } else if v.event.None? {
          SweepArrives(next, k, ios, w);
        }
      }
    }
  }

  lemma ArrivalHasEvent(w: SubstreamState, event: Option<PollEvent>)
    requires ArrivedWith(w, event)
    ensures event.Some?
  {
  }

  lemma NothingNew(subs: seq<SubstreamState>, k: nat, w: SubstreamState)
    requires k < |subs| && w !in subs
    ensures w !in SwapRemove(subs, k) && w != subs[k]
  {
    SwapRemoveFacts(subs, k);
    assert w !in multiset(subs);
  }

  predicate WantsAnswer(m: PeerMessage) {
    m.HandshakeMsg? || m.Bitfield? || m.Request? || m.Cancel?
  }

  /** The poll that puts a substream into waiting for the user tells the user its identifier if and only if the
      message was a handshake, a bit field, a request or a cancel. */
  lemma ToldExact(s: Node, ios: seq<seq<Io>>, w: SubstreamState)
    requires w.InWaitingUser? && w !in s.conn.subs && w in Step(s, Poll(ios)).0.conn.subs
    ensures w.stream.got != []
    ensures TellsOut(Step(s, Poll(ios)).1, w.id) <==> WantsAnswer(w.stream.got[|w.stream.got| - 1])
  {
    hide Sweep;
    SweepArrives(s.conn.subs, |s.conn.subs|, ios, w);
  }

  // ---------------------------------------------------------------- what every inbound substream has told

  /** One of the messages is a request that the user is told about. */
  ghost predicate AnyWants(got: seq<PeerMessage>) {
    exists k :: 0 <= k < |got| && WantsAnswer(got[k])
  }

  lemma AnyWantsAppend(got: seq<PeerMessage>, m: PeerMessage)
    ensures AnyWants(got + [m]) <==> AnyWants(got) || WantsAnswer(m)
  {
    var all := got + [m];
    if k :| 0 <= k < |got| && WantsAnswer(got[k]) {
      assert WantsAnswer(all[k]);
    }
    if WantsAnswer(m) {
      assert WantsAnswer(all[|got|]);
    }
  }

  /** `w` is `u` with one more message, which is what the result reports. */
  ghost predicate Arrived(u: SubstreamState, w: SubstreamState, event: Option<PollEvent>) {
    && Inbound(u) && Inbound(w) && u.id == w.id
    && exists m :: w.stream.got == u.stream.got + [m] && ProcessIn(m, w.id).Some?
                   && event == Some(Custom(ProcessIn(m, w.id).value))
  }

  /** `w` is `u` as far as messages received go. */
  predicate Kept(u: SubstreamState, w: SubstreamState) {
    Inbound(u) && Inbound(w) && u.id == w.id && u.stream.got == w.stream.got
  }

  lemma {:induction false} SettleKeepsOrArrives(s: SubstreamState, ios: seq<Io>, k: nat)
    requires var v := Settle(s, ios, k); v.Visit? && v.state.Some? && Inbound(v.state.value)
    ensures var v := Settle(s, ios, k);
            if v.event.None? then Kept(s, v.state.value) else Arrived(s, v.state.value, v.event)
    decreases Rank(s)
  {
    hide ProcessIn, ProcessOut;
    var io := IoAt(ios, k);
    var a := Advance(s, io);
    if a.Advanced? && a.state.Some? && a.event.None? && a.again {
      RankDecreases(s, io);
      SettleKeepsOrArrives(a.state.value, ios, k + 1);
    }
  }

  /** An event that tells an identifier comes with the substream that has it. */
  lemma {:induction false} SettleTells(s: SubstreamState, ios: seq<Io>, k: nat, id: ConnectionId)
    requires var v := Settle(s, ios, k);
             v.Visit? && v.event.Some? && v.event.value.Custom? && Tells(v.event.value.event, id)
    ensures var v := Settle(s, ios, k); v.state.Some? && Inbound(v.state.value) && v.state.value.id == id
    decreases Rank(s)
  {
    var io := IoAt(ios, k);
    var a := Advance(s, io);
    if a.Advanced? && a.state.Some? && a.event.None? && a.again {
      RankDecreases(s, io);
      SettleTells(a.state.value, ios, k + 1, id);
    }
  }

  function EventOf(r: PollResult): Option<PollEvent> {
    if r.Ready? then Some(r.event) else None
  }

  /** Where an inbound substream of the vector after a sweep comes from. */
  ghost predicate ComesFrom(subs: seq<SubstreamState>, w: SubstreamState, r: PollResult) {
    exists u :: u in subs && (Kept(u, w) || Arrived(u, w, EventOf(r)))
  }

  lemma {:induction false} SweepOrigins(subs: seq<SubstreamState>, n: nat, ios: seq<seq<Io>>, w: SubstreamState)
    requires n <= |subs| && w in Sweep(subs, n, ios).subs && Inbound(w)
    ensures ComesFrom(subs, w, Sweep(subs, n, ios).result)
    decreases n
  {
    hide Settle, SwapRemove, Arrived, Kept;
    var r := Sweep(subs, n, ios);
    if n == 0 {
      KeptItself(subs, w, r.result);
    } else {
      var k := n - 1;
      var v := Settle(subs[k], IosAt(ios, k), 0);
      if v.Crashed? || v.event.Some? {
        VisitedOrigin(subs, k, ios, w, r.result);
      } else {
        var next := Requeue(subs, k, v.state);
        SweepOrigins(next, k, ios, w);
        var u :| u in next && (Kept(u, w) || Arrived(u, w, EventOf(r.result)));
        OriginIsInbound(u, w, EventOf(r.result));
        QuietOrigin(subs, k, ios, u, w, r.result);
      }
    }
  }

  lemma OriginIsInbound(u: SubstreamState, w: SubstreamState, event: Option<PollEvent>)
    requires Kept(u, w) || Arrived(u, w, event)
    ensures Inbound(u)
  {
  }

  lemma KeptItself(subs: seq<SubstreamState>, w: SubstreamState, r: PollResult)
    requires w in subs && Inbound(w)
    ensures ComesFrom(subs, w, r)
  {
    assert Kept(w, w);
  }

  lemma InRest(subs: seq<SubstreamState>, k: nat, w: SubstreamState)
    requires k < |subs| && w in SwapRemove(subs, k)
    ensures w in subs
  {
    SwapRemoveFacts(subs, k);
    assert w in multiset(SwapRemove(subs, k));
    assert w in multiset(subs);
  }

  /** The visit that ends the sweep. */
  lemma VisitedOrigin(subs: seq<SubstreamState>, k: nat, ios: seq<seq<Io>>, w: SubstreamState, r: PollResult)
    requires k < |subs| && Inbound(w)
    requires var v := Settle(subs[k], IosAt(ios, k), 0);
             && w in Requeue(subs, k, if v.Visit? then v.state else None)
             && (v.Visit? ==> v.event.Some? && r == Ready(v.event.value))
    ensures ComesFrom(subs, w, r)
  {
    hide Settle, SwapRemove, Arrived, Kept;
    var v := Settle(subs[k], IosAt(ios, k), 0);
    if w in SwapRemove(subs, k) {
      InRest(subs, k, w);
      KeptItself(subs, w, r);
    } else {
      SettleKeepsOrArrives(subs[k], IosAt(ios, k), 0);
      assert Arrived(subs[k], w, EventOf(r));
    }
  }

  /** A visit without an event. */
  lemma QuietOrigin(subs: seq<SubstreamState>, k: nat, ios: seq<seq<Io>>, u: SubstreamState, w: SubstreamState,
                    r: PollResult)
    requires k < |subs| && Inbound(u) && (Kept(u, w) || Arrived(u, w, EventOf(r)))
    requires var v := Settle(subs[k], IosAt(ios, k), 0); v.Visit? && v.event.None? && u in Requeue(subs, k, v.state)
    ensures ComesFrom(subs, w, r)
  {
    hide Settle, SwapRemove;
    if u in SwapRemove(subs, k) {
      InRest(subs, k, u);
    } else {
      SettleKeepsOrArrives(subs[k], IosAt(ios, k), 0);
      assert Kept(subs[k], u);
      assert Kept(subs[k], w) || Arrived(subs[k], w, EventOf(r));
    }
  }

  /** A sweep that tells an identifier leaves the substream with that identifier in the vector, just arrived. */
  lemma {:induction false} SweepTells(subs: seq<SubstreamState>, n: nat, ios: seq<seq<Io>>, id: ConnectionId)
    returns (w: SubstreamState)
    requires n <= |subs| && TellsOut(Sweep(subs, n, ios).result, id)
    ensures w in Sweep(subs, n, ios).subs && Inbound(w) && w.id == id
    ensures exists u :: u in subs && Arrived(u, w, EventOf(Sweep(subs, n, ios).result))
    decreases n
  {
    hide Settle, SwapRemove, Arrived;
    var r := Sweep(subs, n, ios);
    var k := n - 1;
    var v := Settle(subs[k], IosAt(ios, k), 0);
    if v.event.Some? {
      SettleTells(subs[k], IosAt(ios, k), 0, id);
      SettleKeepsOrArrives(subs[k], IosAt(ios, k), 0);
      w := v.state.value;
      assert Arrived(subs[k], w, EventOf(r.result));
    } else {
      var next := Requeue(subs, k, v.state);
      w := SweepTells(next, k, ios, id);
      var u :| u in next && Arrived(u, w, EventOf(r.result));
      ArrivedOrigin(subs, k, ios, u, w, r.result);
    }
  }

  lemma ArrivedOrigin(subs: seq<SubstreamState>, k: nat, ios: seq<seq<Io>>, u: SubstreamState, w: SubstreamState,
                      r: PollResult)
    requires k < |subs| && Arrived(u, w, EventOf(r))
    requires var v := Settle(subs[k], IosAt(ios, k), 0); v.Visit? && v.event.None? && u in Requeue(subs, k, v.state)
    ensures exists x :: x in subs && Arrived(x, w, EventOf(r))
  {
    hide Settle, SwapRemove;
    if u in SwapRemove(subs, k) {
      InRest(subs, k, u);
    } else {
      SettleKeepsOrArrives(subs[k], IosAt(ios, k), 0);
      assert Kept(subs[k], u);
      assert Arrived(subs[k], w, EventOf(r));
    }
  }

  // ---------------------------------------------------------------- over runs

  ghost predicate ToldIn(outs: seq<PollResult>, id: ConnectionId) {
    exists j :: 0 <= j < |outs| && TellsOut(outs[j], id)
  }

  lemma ToldAppend(outs: seq<PollResult>, r: PollResult, id: ConnectionId)
    ensures ToldIn(outs + [r], id) <==> ToldIn(outs, id) || TellsOut(r, id)
  {
    hide TellsOut;
    var all := outs + [r];
    if j :| 0 <= j < |outs| && TellsOut(outs[j], id) {
      assert TellsOut(all[j], id);
    }
    if TellsOut(r, id) {
      assert TellsOut(all[|outs|], id);
    }
  }

  /** The identifiers told are exactly those of inbound substreams that have received a request, and no unused one
      has been told. */
  ghost predicate Accurate(s: Node, outs: seq<PollResult>) {
    && (forall w :: w in s.conn.subs && Inbound(w) ==> (ToldIn(outs, w.id) <==> AnyWants(w.stream.got)))
    && (forall id :: s.conn.nextId <= id ==> !ToldIn(outs, id))
  }

  /** In a handler in order, inbound substreams with the same identifier are the same. */
  lemma SameId(s: Node, u: SubstreamState, w: SubstreamState)
    requires Inv(s) && u in s.conn.subs && w in s.conn.subs && Inbound(u) && Inbound(w) && u.id == w.id
    ensures u == w
  {
    hide Inv;
    var i :| 0 <= i < |s.conn.subs| && s.conn.subs[i] == u;
    var j :| 0 <= j < |s.conn.subs| && s.conn.subs[j] == w;
    if i < j {
      InboundDiffer(s, i, j);
    } else if j < i {
      InboundDiffer(s, j, i);
    }
  }

  lemma UsedId(s: Node, w: SubstreamState)
    requires Inv(s) && w in s.conn.subs && Inbound(w)
    ensures w.id < s.conn.nextId
  {
    hide Inv;
    var i :| 0 <= i < |s.conn.subs| && s.conn.subs[i] == w;
    InboundInOrder(s, i);
  }

  /** Where an inbound substream of the next state comes from, for every event but a new inbound substream. */
  lemma StepOrigins(s: Node, e: Event, w: SubstreamState)
    requires w in Step(s, e).0.conn.subs && Inbound(w) && !e.InboundOpened?
    ensures ComesFrom(s.conn.subs, w, Step(s, e).1)
  {
    match e
    case Poll(ios) =>
      hide Sweep, ComesFrom;
      SweepOrigins(s.conn.subs, |s.conn.subs|, ios, w);
    case Inject(c) =>
      hide Conn.Inject, ComesFrom;
      InjectOrigins(s.conn, c, w);
    case OutboundOpened(k) =>
      hide ComesFrom;
      KeptItself(s.conn.subs, w, Pending);
    case OutboundFailed(k) =>
      hide ComesFrom;
      KeptItself(s.conn.subs, w, Pending);
  }

  lemma InjectOrigins(c: Conn, command: Command, w: SubstreamState)
    requires w in c.Inject(command).subs && Inbound(w)
    ensures ComesFrom(c.subs, w, Pending)
  {
    hide RemoveAt, ComesFrom;
    if w in c.subs {
      KeptItself(c.subs, w, Pending);
    } else {
      if Subject(command).Some? {
        var pos := WaitingAt(c.subs, Subject(command).value);
        if pos < |c.subs| {
          RemoveAtFacts(c.subs, pos);
          KeptFrom(c.subs, pos, w);
        }
      }
    }
  }

  lemma KeptFrom(subs: seq<SubstreamState>, pos: nat, w: SubstreamState)
    requires pos < |subs|
    ensures Kept(subs[pos], w) ==> ComesFrom(subs, w, Pending)
  {
  }

  /** A result that tells an identifier comes from a poll. */
  lemma TellsPoll(s: Node, e: Event, id: ConnectionId)
    requires TellsOut(Step(s, e).1, id)
    ensures e.Poll? && Step(s, e).1 == Sweep(s.conn.subs, |s.conn.subs|, e.ios).result
    ensures Step(s, e).0.conn.subs == Sweep(s.conn.subs, |s.conn.subs|, e.ios).subs
  {
    hide Sweep;
  }

  lemma ArrivedTells(u: SubstreamState, w: SubstreamState, r: PollResult)
    requires Arrived(u, w, EventOf(r))
    ensures AnyWants(w.stream.got) <==> AnyWants(u.stream.got) || TellsOut(r, w.id)
    ensures w.stream.got != u.stream.got
  {
    var m :| w.stream.got == u.stream.got + [m] && ProcessIn(m, w.id).Some?
             && EventOf(r) == Some(Custom(ProcessIn(m, w.id).value));
    AnyWantsAppend(u.stream.got, m);
    hide AnyWants;
  }

  /** A substream that received nothing in this step is not the one that the step tells about. */
  lemma KeptTellsNothing(s: Node, e: Event, u: SubstreamState, w: SubstreamState)
    requires Inv(s) && Inv(Step(s, e).0) && u in s.conn.subs && w in Step(s, e).0.conn.subs && Kept(u, w)
    ensures !TellsOut(Step(s, e).1, w.id)
  {
    hide Inv, Step, Sweep, Arrived, TellsOut;
    if TellsOut(Step(s, e).1, w.id) {
      TellsPoll(s, e, w.id);
      var x := SweepTells(s.conn.subs, |s.conn.subs|, e.ios, w.id);
      SameId(Step(s, e).0, x, w);
      var y :| y in s.conn.subs && Arrived(y, w, EventOf(Step(s, e).1));
      OriginIsInbound(y, w, EventOf(Step(s, e).1));
      ArrivedSameId(y, w, EventOf(Step(s, e).1));
      SameId(s, y, u);
      ArrivedTells(u, w, Step(s, e).1);
      assert false;
    }
  }

  lemma ArrivedSameId(u: SubstreamState, w: SubstreamState, event: Option<PollEvent>)
    requires Arrived(u, w, event)
    ensures u.id == w.id
  {
  }

  lemma StepStaysAccurate(s: Node, e: Event, outs: seq<PollResult>, w: SubstreamState)
    requires Inv(s) && Inv(Step(s, e).0) && Accurate(s, outs) && w in Step(s, e).0.conn.subs && Inbound(w)
    ensures ToldIn(outs + [Step(s, e).1], w.id) <==> AnyWants(w.stream.got)
  {
    hide Inv, Step, TellsOut, AnyWants, ToldIn;
    ToldAppend(outs, Step(s, e).1, w.id);
    if e.InboundOpened? {
      NewcomerToldNothing(s, e, outs, w);
    } else {
      StepOrigins(s, e, w);
      var u :| u in s.conn.subs && (Kept(u, w) || Arrived(u, w, EventOf(Step(s, e).1)));
      if Kept(u, w) {
        KeptTellsNothing(s, e, u, w);
      } else {
        ArrivedTells(u, w, Step(s, e).1);
      }
    }
  }

  lemma NewcomerToldNothing(s: Node, e: Event, outs: seq<PollResult>, w: SubstreamState)
    requires e.InboundOpened? && Accurate(s, outs) && w in Step(s, e).0.conn.subs && Inbound(w)
    ensures ToldIn(outs, w.id) <==> AnyWants(w.stream.got)
    ensures !TellsOut(Step(s, e).1, w.id)
  {
    hide ToldIn, Sweep;
  }

  lemma StepAccurate(s: Node, e: Event, outs: seq<PollResult>)
    requires Inv(s) && Inv(Step(s, e).0) && Accurate(s, outs)
    ensures Accurate(Step(s, e).0, outs + [Step(s, e).1])
  {
    var (s', r) := Step(s, e);
    IdsOnlyGrow(s, e);
    hide Inv, Step, TellsOut, AnyWants, ToldIn;
    forall w | w in s'.conn.subs && Inbound(w)
      ensures ToldIn(outs + [r], w.id) <==> AnyWants(w.stream.got)
    {
      StepStaysAccurate(s, e, outs, w);
    }
    forall id | s'.conn.nextId <= id
      ensures !ToldIn(outs + [r], id)
    {
      ToldAppend(outs, r, id);
      if TellsOut(r, id) {
        TellsPoll(s, e, id);
        var w := SweepTells(s.conn.subs, |s.conn.subs|, e.ios, id);
        UsedId(s', w);
      }
    }
  }

  lemma IdsOnlyGrow(s: Node, e: Event)
    ensures s.conn.nextId <= Step(s, e).0.conn.nextId
  {
    hide Sweep, WaitingAt, RemoveAt;
  }

  /** A run is a run of its first part, followed by a run of the rest. */
  lemma {:induction false} RunSplit(s: Node, a: seq<Event>, b: seq<Event>)
    ensures Run(s, a + b).0 == Run(Run(s, a).0, b).0
    ensures Run(s, a + b).1 == Run(s, a).1 + Run(Run(s, a).0, b).1
    decreases |a|
  {
    hide Step;
    if a == [] {
      assert a + b == b;
    } else {
      RunSplit(Step(s, a[0]).0, a[1..], b);
      assert (a + b)[0] == a[0] && (a + b)[1..] == a[1..] + b;
    }
  }

  lemma RunOne(s: Node, e: Event)
    ensures Run(s, [e]) == (Step(s, e).0, [Step(s, e).1])
  {
    hide Step;
    assert [e][1..] == [];
    assert [Step(s, e).1] + [] == [Step(s, e).1];
  }

  lemma {:induction false} AccurateRun(es: seq<Event>)
    requires NoCrash(Run(NEW_NODE, es).1)
    ensures Inv(Run(NEW_NODE, es).0) && Accurate(Run(NEW_NODE, es).0, Run(NEW_NODE, es).1)
    decreases |es|
  {
    NewIsFine();
    NewIsAccurate();
    hide Inv, Step, Accurate;
    if es != [] {
      var front, e := es[..|es| - 1], es[|es| - 1];
      assert es == front + [e];
      RunSplit(NEW_NODE, front, [e]);
      var (s, outs) := Run(NEW_NODE, front);
      RunOne(s, e);
      assert forall i :: 0 <= i < |outs| ==> outs[i] == Run(NEW_NODE, es).1[i];
      AccurateRun(front);
      InvariantOverRuns(NEW_NODE, es);
      StepAccurate(s, e, outs);
    }
  }

  lemma NewIsAccurate()
    ensures Accurate(NEW_NODE, [])
  {
  }

  /** In every run of a new handler the user has been told the identifier of an inbound substream if and only if the
      substream has received a handshake, a bit field, a request or a cancel. */
  lemma ToldInRunExact(es: seq<Event>, w: SubstreamState)
    requires NoCrash(Run(NEW_NODE, es).1) && w in Run(NEW_NODE, es).0.conn.subs && Inbound(w)
    ensures ToldIn(Run(NEW_NODE, es).1, w.id) <==> AnyWants(w.stream.got)
  {
    hide Run, Inv, ToldIn, AnyWants;
    AccurateRun(es);
  }

  // ---------------------------------------------------------------- waiting for good

  /** A user who names only identifiers that the handler has told before. */
  ghost predicate Informed(es: seq<Event>) {
    forall i, id :: 0 <= i < |es| && Names(es[i], id) ==> ToldIn(Run(NEW_NODE, es[..i]).1, id)
  }

  /** A substream that has received no request stays where it is, whatever an informed user does. */
  lemma {:induction false} WaitsForGood(a: seq<Event>, b: seq<Event>, w: SubstreamState)
    requires NoCrash(Run(NEW_NODE, a + b).1) && Informed(a + b)
    requires w in Run(NEW_NODE, a).0.conn.subs && w.InWaitingUser? && !AnyWants(w.stream.got)
    ensures w in Run(NEW_NODE, a + b).0.conn.subs
    decreases |b|
  {
    hide Step, ToldIn, AnyWants, Names;
    if b == [] {
      assert a + b == a;
    } else {
      var front, e := b[..|b| - 1], b[|b| - 1];
      assert a + b == (a + front) + [e];
      RunSplit(NEW_NODE, a + front, [e]);
      RunOne(Run(NEW_NODE, a + front).0, e);
      FrontIsFine(a + front, e);
      WaitsForGood(a, front, w);
      ToldInRunExact(a + front, w);
      assert (a + b)[..|a + front|] == a + front && (a + b)[|a + front|] == e;
      StepKeepsWaiting(Run(NEW_NODE, a + front).0, e, w);
    }
  }

  lemma FrontIsFine(front: seq<Event>, e: Event)
    requires NoCrash(Run(NEW_NODE, front + [e]).1) && Informed(front + [e])
    ensures NoCrash(Run(NEW_NODE, front).1) && Informed(front)
  {
    hide Step, ToldIn, Names;
    RunSplit(NEW_NODE, front, [e]);
    var outs, all := Run(NEW_NODE, front).1, Run(NEW_NODE, front + [e]).1;
    assert forall i :: 0 <= i < |outs| ==> outs[i] == all[i];
    forall i, id | 0 <= i < |front| && Names(front[i], id)
      ensures ToldIn(Run(NEW_NODE, front[..i]).1, id)
    {
      assert (front + [e])[i] == front[i] && (front + [e])[..i] == front[..i];
    }
  }

  /** An informed continuation without a panic. */
  ghost predicate Continues(a: seq<Event>, b: seq<Event>) {
    NoCrash(Run(NEW_NODE, a + b).1) && Informed(a + b)
  }

  /** Exactly when a substream waits for good: in every run of a new handler with an informed user, a substream that
      waits stays for good, in all informed continuations, if and only if it has received no handshake, bit field,
      request or cancel. */
  lemma WaitsForGoodExact(a: seq<Event>, w: SubstreamState)
    requires Continues(a, []) && w in Run(NEW_NODE, a).0.conn.subs && w.InWaitingUser?
    ensures (forall b :: Continues(a, b) ==> w in Run(NEW_NODE, a + b).0.conn.subs) <==> !AnyWants(w.stream.got)
  {
    hide Step, ToldIn, AnyWants, Names, Run, Informed;
    assert a + [] == a;
    if AnyWants(w.stream.got) {
      ResetRemoves(a, w);
      var b := [Inject(Reset(w.id))];
      assert Continues(a, b) && w !in Run(NEW_NODE, a + b).0.conn.subs;
    } else {
      forall b | Continues(a, b)
        ensures w in Run(NEW_NODE, a + b).0.conn.subs
      {
        WaitsForGood(a, b, w);
      }
    }
  }

  /** A substream whose identifier has been told can be reset. */
  lemma ResetRemoves(a: seq<Event>, w: SubstreamState)
    requires NoCrash(Run(NEW_NODE, a).1) && Informed(a)
    requires w in Run(NEW_NODE, a).0.conn.subs && w.InWaitingUser? && AnyWants(w.stream.got)
    ensures var b := [Inject(Reset(w.id))]; Continues(a, b) && w !in Run(NEW_NODE, a + b).0.conn.subs
  {
    hide ToldIn, AnyWants, Inv;
    var e := Inject(Reset(w.id));
    var s := Run(NEW_NODE, a).0;
    ToldInRunExact(a, w);
    AccurateRun(a);
    RunSplit(NEW_NODE, a, [e]);
    RunOne(s, e);
    hide Run;
    InformedFurther(a, e, w.id);
    ResetTakes(s, w);
  }

  lemma InformedFurther(a: seq<Event>, e: Event, id: ConnectionId)
    requires Informed(a) && ToldIn(Run(NEW_NODE, a).1, id) && forall x :: Names(e, x) ==> x == id
    ensures Informed(a + [e])
  {
    hide Run, ToldIn, Names;
    var es := a + [e];
    forall i, x | 0 <= i < |es| && Names(es[i], x)
      ensures ToldIn(Run(NEW_NODE, es[..i]).1, x)
    {
      if i < |a| {
        assert es[i] == a[i] && es[..i] == a[..i];
      } else {
        assert es[..i] == a;
      }
    }
  }

  lemma ResetTakes(s: Node, w: SubstreamState)
    requires Inv(s) && w in s.conn.subs && w.InWaitingUser?
    ensures w !in Step(s, Inject(Reset(w.id))).0.conn.subs
  {
    hide Inv, RemoveAt, Alternates;
    var subs := s.conn.subs;
    var i :| 0 <= i < |subs| && subs[i] == w;
    var pos := WaitingAt(subs, w.id);
    assert Waits(subs[i], w.id);
    forall j | 0 <= j < |subs| && subs[j] == w
      ensures j == pos
    {
      WaitsUnique(s, w.id, j, pos);
    }
    GoneAfter(subs, pos, w);
  }

  lemma GoneAfter<T>(s: seq<T>, pos: nat, x: T)
    requires pos < |s| && forall j :: 0 <= j < |s| && s[j] == x ==> j == pos
    ensures x !in RemoveAt(s, pos)
  {
    hide RemoveAt;
    RemoveAtIndex(s, pos);
  }
}
