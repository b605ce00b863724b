/** Runs of a connection handler: one outcome per request, distinct inbound substreams, and what a sweep
    does to the vector it goes through (src/handler.rs). */
module Connections {
  import opened Collections
  import opened Messages
  import opened Substreams
  import opened Handlers

  // ---------------------------------------------------------------- one sweep

  /** The first position, from the back, whose visit ends the sweep; 0 if none does. */
  function StopAt(subs: seq<SubstreamState>, n: nat, ios: seq<seq<Io>>): (j: nat)
    requires n <= |subs|
    ensures j <= n
  {
    if n == 0 then 0
    else
      var v := Settle(subs[n - 1], IosAt(ios, n - 1), 0);
      if v.Crashed? || v.event.Some? then n - 1 else StopAt(subs, n - 1, ios)
  }

  /** What the visit of position `k` leaves in the vector. */
  function SurvivorAt(subs: seq<SubstreamState>, k: nat, ios: seq<seq<Io>>): multiset<SubstreamState>
    requires k < |subs|
  {
    var v := Settle(subs[k], IosAt(ios, k), 0);
    if v.Visit? && v.state.Some? then multiset{v.state.value} else multiset{}
  }

  function Survivors(subs: seq<SubstreamState>, j: nat, n: nat, ios: seq<seq<Io>>): multiset<SubstreamState>
    requires j <= n <= |subs|
    decreases n
  {
    if j == n then multiset{} else SurvivorAt(subs, n - 1, ios) + Survivors(subs, j, n - 1, ios)
  }

  /** The result that the last visit decides. */
  function Verdict(subs: seq<SubstreamState>, n: nat, ios: seq<seq<Io>>): PollResult
    requires n <= |subs|
  {
    if n == 0 then Pending
    else
      var v := Settle(subs[n - 1], IosAt(ios, n - 1), 0);
      if v.Crashed? then Crash
      else if v.event.Some? then Ready(v.event.value)
      else Verdict(subs, n - 1, ios)
  }

  /** Survivors and verdict of the first `n` positions do not depend on what comes after them. */
  lemma {:induction false} SamePrefix(a: seq<SubstreamState>, b: seq<SubstreamState>, n: nat, ios: seq<seq<Io>>)
    requires n <= |a| && n <= |b| && a[..n] == b[..n]
    ensures StopAt(a, n, ios) == StopAt(b, n, ios)
    ensures Verdict(a, n, ios) == Verdict(b, n, ios)
    ensures forall j :: 0 <= j <= n ==> Survivors(a, j, n, ios) == Survivors(b, j, n, ios)
    decreases n
  {
    hide Settle;
    if n > 0 {
      assert a[n - 1] == a[..n][n - 1] == b[n - 1];
      assert a[..n - 1] == a[..n][..n - 1] == b[..n - 1];
      SamePrefix(a, b, n - 1, ios);
    }
  }

  /** The vector after position `k` has been taken out and, if it survives, put back at the end. */
  function Requeue(subs: seq<SubstreamState>, k: nat, state: Option<SubstreamState>): seq<SubstreamState>
    requires k < |subs|
  {
    if state.Some? then SwapRemove(subs, k) + [state.value] else SwapRemove(subs, k)
  }

  lemma RequeueShape(subs: seq<SubstreamState>, k: nat, state: Option<SubstreamState>)
    requires k < |subs|
    ensures var next := Requeue(subs, k, state);
            && k <= |next| && next[..k] == subs[..k]
            && multiset(next[k..]) == multiset(subs[k + 1..])
                                    + (if state.Some? then multiset{state.value} else multiset{})
            && multiset(next) == multiset(subs[..k]) + multiset(next[k..])
  {
    var rest, next := SwapRemove(subs, k), Requeue(subs, k, state);
    RestOf(subs, k);
    assert next[k..] == rest[k..] + (if state.Some? then [state.value] else []);
    assert next == next[..k] + next[k..];
  }

  /** One turn of the loop, on the vector, the result, the stopping point and the survivors. */
  lemma SweepStep(subs: seq<SubstreamState>, n: nat, ios: seq<seq<Io>>)
    requires 0 < n <= |subs|
    ensures var k := n - 1;
            var v := Settle(subs[k], IosAt(ios, k), 0);
            var next := Requeue(subs, k, if v.Visit? then v.state else None);
            && k <= |next|
            && (if v.Visit? && v.event.None?
                then Sweep(subs, n, ios) == Sweep(next, k, ios) && StopAt(subs, n, ios) == StopAt(subs, k, ios)
                     && Verdict(subs, n, ios) == Verdict(subs, k, ios)
                else Sweep(subs, n, ios) == Swept(next, Verdict(subs, n, ios)) && StopAt(subs, n, ios) == k)
            && forall j :: 0 <= j <= k ==>
                 Survivors(subs, j, n, ios) == SurvivorAt(subs, k, ios) + Survivors(subs, j, k, ios)
    ensures Survivors(subs, n - 1, n - 1, ios) == multiset{}
  {
    hide Settle;
  }

  /** Whatever `swap_remove` does to the order: positions below the stopping point are untouched and in
      place; each position from there up to `n` is visited exactly once, in its initial state; what was behind
      `n` is still there; and nothing else is in the vector. */
  ghost predicate Shaped(subs: seq<SubstreamState>, n: nat, ios: seq<seq<Io>>)
    requires n <= |subs|
  {
    var j := StopAt(subs, n, ios);
    var r := Sweep(subs, n, ios);
    && r.result == Verdict(subs, n, ios)
    && j <= |r.subs| && r.subs[..j] == subs[..j]
    && multiset(r.subs) == multiset(subs[..j]) + Survivors(subs, j, n, ios) + multiset(subs[n..])
  }

  lemma ShapedStop(subs: seq<SubstreamState>, n: nat, ios: seq<seq<Io>>)
    requires 0 < n <= |subs|
    requires var v := Settle(subs[n - 1], IosAt(ios, n - 1), 0); v.Crashed? || v.event.Some?
    ensures Shaped(subs, n, ios)
  {
    hide Settle, Sweep, StopAt, Verdict, Survivors, Requeue;
    var k := n - 1;
    var v := Settle(subs[k], IosAt(ios, k), 0);
    RequeueShape(subs, k, if v.Visit? then v.state else None);
    SweepStep(subs, n, ios);
    var next := Sweep(subs, n, ios).subs;
    assert multiset(next[k..]) == multiset(subs[n..]) + SurvivorAt(subs, k, ios);
    hide SurvivorAt;
    Pooled(multiset(next), multiset(subs[..k]), multiset{}, multiset(next[k..]), multiset(subs[n..]),
           SurvivorAt(subs, k, ios), Survivors(subs, k, n, ios));
  }

  lemma ShapedGoOn(subs: seq<SubstreamState>, n: nat, ios: seq<seq<Io>>, state: Option<SubstreamState>)
    requires 0 < n <= |subs|
    requires Settle(subs[n - 1], IosAt(ios, n - 1), 0) == Visit(state, None)
    requires n - 1 <= |Requeue(subs, n - 1, state)| && Shaped(Requeue(subs, n - 1, state), n - 1, ios)
    ensures Shaped(subs, n, ios)
  {
    hide Settle, Sweep, StopAt, Verdict, Survivors, Requeue;
    var k := n - 1;
    var next := Requeue(subs, k, state);
    RequeueShape(subs, k, state);
    SweepStep(subs, n, ios);
    SamePrefix(next, subs, k, ios);
    var j := StopAt(subs, k, ios);
    ShorterPrefix(next, subs, k, j);
    assert multiset(next[k..]) == multiset(subs[n..]) + SurvivorAt(subs, k, ios);
    hide SurvivorAt;
    Pooled(multiset(Sweep(subs, n, ios).subs), multiset(subs[..j]), Survivors(subs, j, k, ios), multiset(next[k..]),
           multiset(subs[n..]), SurvivorAt(subs, k, ios), Survivors(subs, j, n, ios));
  }

  lemma Pooled<T>(all: multiset<T>, a: multiset<T>, b: multiset<T>, cd: multiset<T>, c: multiset<T>, d: multiset<T>,
                  db: multiset<T>)
    requires all == a + b + cd && cd == c + d && db == d + b
    ensures all == a + db + c
  {
  }

  lemma ShorterPrefix<T>(a: seq<T>, b: seq<T>, k: nat, j: nat)
    requires j <= k <= |a| && k <= |b| && a[..k] == b[..k]
    ensures a[..j] == b[..j]
  {
    assert a[..j] == a[..k][..j] && b[..j] == b[..k][..j];
  }

  /** Sweep correctness, for every vector and every behaviour of the streams. */
  lemma {:induction false} SweepShape(subs: seq<SubstreamState>, n: nat, ios: seq<seq<Io>>)
    requires n <= |subs|
    ensures Shaped(subs, n, ios)
    decreases n
  {
    if n == 0 {
      assert subs[..0] == [] && subs[0..] == subs;
    } else {
      hide Settle, Shaped;
      var v := Settle(subs[n - 1], IosAt(ios, n - 1), 0);
      if v.Crashed? || v.event.Some? {
        ShapedStop(subs, n, ios);
      } else {
        RequeueShape(subs, n - 1, v.state);
        SweepShape(Requeue(subs, n - 1, v.state), n - 1, ios);
        ShapedGoOn(subs, n, ios, v.state);
      }
    }
  }

  lemma RestOf(subs: seq<SubstreamState>, k: nat)
    requires k < |subs|
    ensures var rest := SwapRemove(subs, k);
            rest[..k] == subs[..k] && multiset(rest[k..]) == multiset(subs[k + 1..])
  {
    var rest, last := SwapRemove(subs, k), |subs| - 1;
    if k == last {
      assert rest[k..] == [] == subs[k + 1..];
    } else {
      assert rest[k..] == [subs[last]] + subs[k + 1..last];
      assert subs[k + 1..] == subs[k + 1..last] + [subs[last]];
    }
  }

  // ---------------------------------------------------------------- the account of a sweep

  function Handed(r: PollResult): multiset<UserData> {
    if r.Ready? then Carries(Some(r.event)) else multiset{}
  }

  ghost predicate AllAlternate(subs: seq<SubstreamState>) {
    forall s :: s in subs ==> Alternates(s)
  }

  /** A sweep without a Port message loses and invents no user data, brings no identifier into the vector,
      and keeps requests and replies alternating. */
  lemma {:induction false} SweepAccount(subs: seq<SubstreamState>, n: nat, ios: seq<seq<Io>>)
    requires n <= |subs| && !Sweep(subs, n, ios).result.Crash?
    ensures var r := Sweep(subs, n, ios);
            && Sum(subs, Owes) == Sum(r.subs, Owes) + Handed(r.result)
            && Sum(r.subs, Ids) <= Sum(subs, Ids)
            && (AllAlternate(subs) ==> AllAlternate(r.subs))
    decreases n
  {
    if n > 0 {
      var k := n - 1;
      var v := Settle(subs[k], IosAt(ios, k), 0);
      SettleKeeps(subs[k], IosAt(ios, k), 0);
      AccountOfVisit(subs, k, v);
      if v.event.None? {
        SweepAccount(Requeue(subs, k, v.state), k, ios);
      }
    }
  }

  lemma OwesAfterVisit(subs: seq<SubstreamState>, k: nat, v: Visit)
    requires k < |subs| && v.Visit? && Owes(subs[k]) == OwesOpt(v.state) + Carries(v.event)
    ensures Sum(subs, Owes) == Sum(Requeue(subs, k, v.state), Owes) + Carries(v.event)
  {
    hide Sum, Owes, Carries, SwapRemove;
    var rest := SwapRemove(subs, k);
    SumSwapRemove(subs, k, Owes);
    UnionAssociates(Sum(rest, Owes), OwesOpt(v.state), Carries(v.event));
    if v.state.Some? {
      SumAppend(rest, [v.state.value], Owes);
      SumOne(v.state.value, Owes);
    }
  }

  lemma IdsAfterVisit(subs: seq<SubstreamState>, k: nat, state: Option<SubstreamState>)
    requires k < |subs| && (state.Some? ==> IdsOpt(state) == Ids(subs[k]))
    ensures Sum(Requeue(subs, k, state), Ids) <= Sum(subs, Ids)
  {
    hide Sum, Ids, SwapRemove;
    var rest := SwapRemove(subs, k);
    SumSwapRemove(subs, k, Ids);
    if state.Some? {
      SumAppend(rest, [state.value], Ids);
      SumOne(state.value, Ids);
    }
  }

  lemma AlternatesAfterVisit(subs: seq<SubstreamState>, k: nat, state: Option<SubstreamState>)
    requires k < |subs| && AllAlternate(subs) && (state.Some? ==> Alternates(state.value))
    ensures AllAlternate(Requeue(subs, k, state))
  {
    hide Alternates, SwapRemove;
    SwapRemoveFacts(subs, k);
    forall s | s in SwapRemove(subs, k)
      ensures s in subs
    {
      assert s in multiset(SwapRemove(subs, k));
      assert s in multiset(subs);
    }
  }

  lemma AccountOfVisit(subs: seq<SubstreamState>, k: nat, v: Visit)
    requires k < |subs| && v.Visit?
    requires Owes(subs[k]) == OwesOpt(v.state) + Carries(v.event)
    requires v.state.Some? ==> IdsOpt(v.state) == Ids(subs[k])
    requires Alternates(subs[k]) && v.state.Some? ==> Alternates(v.state.value)
    ensures var next := Requeue(subs, k, v.state);
            && Sum(subs, Owes) == Sum(next, Owes) + Carries(v.event)
            && Sum(next, Ids) <= Sum(subs, Ids)
            && (AllAlternate(subs) ==> AllAlternate(next))
  {
    hide Sum, Owes, Ids, Carries, Alternates, Requeue;
    OwesAfterVisit(subs, k, v);
    IdsAfterVisit(subs, k, v.state);
    if AllAlternate(subs) {
      assert Alternates(subs[k]);
      AlternatesAfterVisit(subs, k, v.state);
    }
  }

  // ---------------------------------------------------------------- the connection and its environment

  type OpenInfo = (PeerMessage, Option<UserData>)

  /** A handler together with the substreams it has asked the network to open. */
  datatype Node = Node(conn: Conn, opening: seq<OpenInfo>)

  datatype Event =
    | Inject(command: Command)
    | InboundOpened
    | OutboundOpened(k: nat)
    | OutboundFailed(k: nat)
    | Poll(ios: seq<seq<Io>>)

  function Step(s: Node, e: Event): (Node, PollResult) {
    match e
    case Inject(c) => (s.(conn := s.conn.Inject(c)), Pending)
    case InboundOpened => (s.(conn := s.conn.NegotiatedInbound()), Pending)
    case OutboundOpened(k) =>
      if k < |s.opening| then
        (Node(s.conn.NegotiatedOutbound(s.opening[k].0, s.opening[k].1), RemoveAt(s.opening, k)), Pending)
      else (s, Pending)
    case OutboundFailed(k) =>
      if k < |s.opening| then (Node(s.conn.DialError(s.opening[k].1), RemoveAt(s.opening, k)), Pending)
      else (s, Pending)
    case Poll(ios) =>
      var (c, r) := s.conn.Poll(ios);
      (Node(c, if r.Ready? && r.event.OpenRequest? then s.opening + [(r.event.msg, r.event.data)] else s.opening), r)
  }

  function OpenData(o: OpenInfo): multiset<UserData> {
    DataIn(o.1)
  }

  /** The user data issued and not yet reported: queued, opening or in a substream. */
  ghost function Outstanding(s: Node): multiset<UserData> {
    Sum(s.conn.subs, Owes) + Sum(s.opening, OpenData)
  }

  function Issued(e: Event): multiset<UserData> {
    if e.Inject? && Outgoing(e.command).Some? then DataIn(Outgoing(e.command).value.1) else multiset{}
  }

  function Reported(r: PollResult): multiset<UserData> {
    if r.Ready? && r.event.Custom? then Reports(r.event.event) else multiset{}
  }

  /** Inbound identifiers are pairwise distinct and below the next one; every substream alternates. */
  ghost predicate Inv(s: Node) {
    FreshIds(Sum(s.conn.subs, Ids), s.conn.nextId) && AllAlternate(s.conn.subs)
  }

  ghost predicate FreshIds(ids: multiset<ConnectionId>, next: ConnectionId) {
    forall id: ConnectionId :: ids[id] <= if id < next then 1 else 0
  }

  // ---------------------------------------------------------------- one step

  lemma PushSub(subs: seq<SubstreamState>, s: SubstreamState)
    ensures Sum(subs + [s], Owes) == Sum(subs, Owes) + Owes(s)
    ensures Sum(subs + [s], Ids) == Sum(subs, Ids) + Ids(s)
    ensures Alternates(s) && AllAlternate(subs) ==> AllAlternate(subs + [s])
  {
    hide Sum, Owes, Ids, Alternates;
    SumAppend(subs, [s], Owes);
    SumOne(s, Owes);
    SumAppend(subs, [s], Ids);
    SumOne(s, Ids);
  }

  lemma TakeSub(subs: seq<SubstreamState>, i: nat)
    requires i < |subs|
    ensures Sum(subs, Owes) == Sum(RemoveAt(subs, i), Owes) + Owes(subs[i])
    ensures Sum(subs, Ids) == Sum(RemoveAt(subs, i), Ids) + Ids(subs[i])
    ensures AllAlternate(subs) ==> AllAlternate(RemoveAt(subs, i)) && Alternates(subs[i])
  {
    hide Sum, Owes, Ids, Alternates;
    SumRemoveAt(subs, i, Owes);
    SumRemoveAt(subs, i, Ids);
    RemoveAtFacts(subs, i);
  }

  /** `b` comes from `a` by issuing `issued` and dropping or keeping identifiers. */
  ghost predicate Accounted(a: seq<SubstreamState>, b: seq<SubstreamState>, issued: multiset<UserData>) {
    && Sum(a, Owes) + issued == Sum(b, Owes)
    && Sum(b, Ids) <= Sum(a, Ids)
    && (AllAlternate(a) ==> AllAlternate(b))
  }

  lemma QueueAccount(subs: seq<SubstreamState>, msg: PeerMessage, data: Option<UserData>)
    ensures Accounted(subs, subs + [OutPendingOpen(msg, data)], DataIn(data))
  {
    PushSub(subs, OutPendingOpen(msg, data));
    hide Sum, AllAlternate;
  }

  lemma ReplyAccount(subs: seq<SubstreamState>, pos: nat, id: ConnectionId, msg: PeerMessage)
    requires pos < |subs| && Waits(subs[pos], id)
    ensures Accounted(subs, RemoveAt(subs, pos) + [InPendingSend(id, subs[pos].stream, msg)], multiset{})
  {
    TakeSub(subs, pos);
    PushSub(RemoveAt(subs, pos), InPendingSend(id, subs[pos].stream, msg));
    hide Sum, AllAlternate;
  }

  lemma ResetAccount(subs: seq<SubstreamState>, pos: nat, id: ConnectionId)
    requires pos < |subs| && Waits(subs[pos], id)
    ensures Accounted(subs, RemoveAt(subs, pos), multiset{})
  {
    TakeSub(subs, pos);
    hide Sum, AllAlternate;
  }

  lemma NothingAccount(subs: seq<SubstreamState>)
    ensures Accounted(subs, subs, multiset{})
  {
    hide Sum, AllAlternate;
  }

  /** A command issues the user data it carries and nothing else changes hands; identifiers only go away. */
  lemma InjectAccount(c: Conn, command: Command)
    ensures Accounted(c.subs, c.Inject(command).subs, Issued(Inject(command)))
    ensures c.Inject(command).nextId == c.nextId
  {
    hide Accounted;
    NothingAccount(c.subs);
    if Outgoing(command).Some? {
      var (msg, data) := Outgoing(command).value;
      QueueAccount(c.subs, msg, data);
    } else if Answer(command).Some? {
      var (msg, id) := Answer(command).value;
      var pos := WaitingAt(c.subs, id);
      if pos < |c.subs| {
        ReplyAccount(c.subs, pos, id, msg);
      }
    } else if command.Reset? || command.CancelRequest? {
      var pos := WaitingAt(c.subs, command.id);
      if pos < |c.subs| {
        ResetAccount(c.subs, pos, command.id);
      } else if command.CancelRequest? {
        QueueAccount(c.subs, Cancel(command.request), None);
      }
    }
  }

  lemma OpeningAccount(opening: seq<OpenInfo>, k: nat, o: OpenInfo)
    ensures k < |opening| ==> Sum(opening, OpenData) == Sum(RemoveAt(opening, k), OpenData) + OpenData(opening[k])
    ensures Sum(opening + [o], OpenData) == Sum(opening, OpenData) + OpenData(o)
  {
    hide Sum;
    if k < |opening| {
      SumRemoveAt(opening, k, OpenData);
    }
    SumAppend(opening, [o], OpenData);
    SumOne(o, OpenData);
  }

  lemma PollAccount(s: Node, ios: seq<seq<Io>>)
    requires !Step(s, Poll(ios)).1.Crash?
    ensures var (s', r) := Step(s, Poll(ios));
            && Outstanding(s) == Outstanding(s') + Reported(r)
            && Sum(s'.conn.subs, Ids) <= Sum(s.conn.subs, Ids)
            && (AllAlternate(s.conn.subs) ==> AllAlternate(s'.conn.subs))
            && s'.conn.nextId == s.conn.nextId
  {
    hide Sum, Sweep, AllAlternate, Handed;
    var (s', r) := Step(s, Poll(ios));
    SweepAccount(s.conn.subs, |s.conn.subs|, ios);
    PassedOn(s.opening, s'.opening, r);
    MovedOn(Sum(s.conn.subs, Owes), Sum(s'.conn.subs, Owes), Handed(r), Sum(s.opening, OpenData),
            Sum(s'.opening, OpenData), Reported(r));
  }

  /** What a poll hands out goes to the substreams being opened, or is reported. */
  lemma PassedOn(opening: seq<OpenInfo>, opening': seq<OpenInfo>, r: PollResult)
    requires opening' == if r.Ready? && r.event.OpenRequest? then opening + [(r.event.msg, r.event.data)] else opening
    ensures Sum(opening, OpenData) + Handed(r) == Sum(opening', OpenData) + Reported(r)
  {
    hide Sum;
    if r.Ready? && r.event.OpenRequest? {
      OpeningAccount(opening, 0, (r.event.msg, r.event.data));
    }
  }

  lemma MovedOn<T>(a: multiset<T>, b: multiset<T>, handed: multiset<T>, o: multiset<T>, o': multiset<T>, r: multiset<T>)
    requires a == b + handed && o + handed == o' + r
    ensures a + o == b + o' + r
  {
    assert a + o == b + (o + handed);
  }

  /** Every step balances the account of user data, unless the poll reads a Port message and panics. */
  lemma StepAccount(s: Node, e: Event)
    requires !Step(s, e).1.Crash?
    ensures var (s', r) := Step(s, e); Outstanding(s) + Issued(e) == Outstanding(s') + Reported(r)
  {
    hide Sum, Owes, OpenData;
    match e
    case Inject(c) => InjectAccount(s.conn, c);
    case InboundOpened => InboundAccount(s.conn);
    case OutboundOpened(k) =>
      if k < |s.opening| {
        OpeningAccount(s.opening, k, s.opening[k]);
        OutboundAccount(s.conn, s.opening[k]);
      }
    case OutboundFailed(k) =>
      if k < |s.opening| {
        OpeningAccount(s.opening, k, s.opening[k]);
        OutboundAccount(s.conn, s.opening[k]);
      }
    case Poll(ios) => PollAccount(s, ios);
  }

  lemma InboundAccount(c: Conn)
    ensures Sum(c.NegotiatedInbound().subs, Owes) == Sum(c.subs, Owes)
    ensures Sum(c.NegotiatedInbound().subs, Ids) == Sum(c.subs, Ids) + multiset{c.nextId}
  {
    hide Sum;
    PushSub(c.subs, InWaitingMessage(c.nextId, NEW_STREAM));
  }

  lemma OutboundAccount(c: Conn, o: OpenInfo)
    ensures Sum(c.NegotiatedOutbound(o.0, o.1).subs, Owes) == Sum(c.subs, Owes) + OpenData(o)
    ensures Sum(c.DialError(o.1).subs, Owes) == Sum(c.subs, Owes) + OpenData(o)
  {
    hide Sum;
    PushSub(c.subs, OutPendingSend(NEW_STREAM, o.0, o.1));
    if o.1.Some? {
      PushSub(c.subs, OutReportError(Upgrade, o.1.value));
    }
  }

  lemma InvFromIds(s: Node, s': Node)
    requires Inv(s) && AllAlternate(s'.conn.subs) && s.conn.nextId <= s'.conn.nextId
    requires Sum(s'.conn.subs, Ids) <= Sum(s.conn.subs, Ids)
    ensures Inv(s')
  {
    hide Sum, AllAlternate;
    var a, b := Sum(s.conn.subs, Ids), Sum(s'.conn.subs, Ids);
    forall id: ConnectionId
      ensures b[id] <= if id < s'.conn.nextId then 1 else 0
    {
      assert b[id] <= a[id];
    }
  }

  /** Every step keeps the invariant. */
  lemma StepKeeps(s: Node, e: Event)
    requires Inv(s) && !Step(s, e).1.Crash?
    ensures Inv(Step(s, e).0)
  {
    var s' := Step(s, e).0;
    match e
    case Inject(c) =>
      InjectAccount(s.conn, c);
      InvFromIds(s, s');
    case InboundOpened =>
      InboundKeeps(s);
    case OutboundOpened(k) =>
      if k < |s.opening| {
        PushSub(s.conn.subs, OutPendingSend(NEW_STREAM, s.opening[k].0, s.opening[k].1));
        InvFromIds(s, s');
      }
    case OutboundFailed(k) =>
      if k < |s.opening| && s.opening[k].1.Some? {
        PushSub(s.conn.subs, OutReportError(Upgrade, s.opening[k].1.value));
        InvFromIds(s, s');
      }
    case Poll(ios) =>
      PollAccount(s, ios);
      InvFromIds(s, s');
  }

  lemma InboundKeeps(s: Node)
    requires Inv(s)
    ensures Inv(s.(conn := s.conn.NegotiatedInbound()))
  {
    InboundAccount(s.conn);
    PushSub(s.conn.subs, InWaitingMessage(s.conn.nextId, NEW_STREAM));
    hide Sum;
    var a, next := Sum(s.conn.subs, Ids), s.conn.nextId;
    forall id: ConnectionId
      ensures (a + multiset{next})[id] <= if id < next + 1 then 1 else 0
    {
      assert a[id] <= if id < next then 1 else 0;
    }
  }

  // ---------------------------------------------------------------- runs

  function Run(s: Node, es: seq<Event>): (r: (Node, seq<PollResult>))
    ensures |r.1| == |es|
    decreases |es|
  {
    if es == [] then (s, [])
    else
      var (s', out) := Step(s, es[0]);
      var (last, outs) := Run(s', es[1..]);
      (last, [out] + outs)
  }

  predicate NoCrash(outs: seq<PollResult>) {
    forall i :: 0 <= i < |outs| ==> !outs[i].Crash?
  }

  /** One outcome per request: in every run without a panic, the user data issued is, with multiplicities,
      the user data outstanding and the user data reported in an answer or an error. */
  lemma {:induction false} OneOutcomePerRequest(s: Node, es: seq<Event>)
    requires NoCrash(Run(s, es).1)
    ensures var (s', outs) := Run(s, es);
            Outstanding(s) + Sum(es, Issued) == Outstanding(s') + Sum(outs, Reported)
    decreases |es|
  {
    hide Step, Outstanding, Issued, Reported;
    if es != [] {
      var (s', out) := Step(s, es[0]);
      var outs := Run(s, es).1;
      assert outs[0] == out && outs[1..] == Run(s', es[1..]).1;
      assert NoCrash(outs[1..]);
      StepAccount(s, es[0]);
      OneOutcomePerRequest(s', es[1..]);
      Balance(Outstanding(s), Outstanding(s'), Outstanding(Run(s, es).0),
              Issued(es[0]), Reported(out), Sum(es[1..], Issued), Sum(outs[1..], Reported));
    }
  }

  lemma {:induction false} InvariantOverRuns(s: Node, es: seq<Event>)
    requires Inv(s) && NoCrash(Run(s, es).1)
    ensures Inv(Run(s, es).0)
    decreases |es|
  {
    hide Step, Inv;
    if es != [] {
      var (s', out) := Step(s, es[0]);
      var outs := Run(s, es).1;
      assert outs[0] == out && outs[1..] == Run(s', es[1..]).1;
      assert NoCrash(outs[1..]);
      StepKeeps(s, es[0]);
      InvariantOverRuns(s', es[1..]);
    }
  }

  const NEW_NODE := Node(Conn([], 0, Yes), [])

  /** Hence a request whose user data is issued once is outstanding or has been reported exactly once. */
  lemma ExactlyOneEvent(es: seq<Event>, user: UserData)
    requires NoCrash(Run(NEW_NODE, es).1)
    requires Sum(es, Issued)[user] == 1
    ensures var (s, outs) := Run(NEW_NODE, es);
            Sum(outs, Reported)[user] == if user in Outstanding(s) then 0 else 1
  {
    OneOutcomePerRequest(NEW_NODE, es);
    var (s, outs) := Run(NEW_NODE, es);
    assert Outstanding(NEW_NODE) == multiset{};
    hide Run, Sum, Outstanding;
    var issued, reported := Sum(es, Issued), Sum(outs, Reported);
    assert issued == Outstanding(s) + reported;
    assert (Outstanding(s) + reported)[user] == Outstanding(s)[user] + reported[user];
  }

  predicate Inbound(s: SubstreamState) {
    s.InWaitingMessage? || s.InWaitingUser? || s.InPendingSend? || s.InPendingFlush?
  }

  /** An inbound substream has a used identifier and has received as many messages as it has replied to, or one
      more. */
  predicate InOrder(s: SubstreamState, nextId: ConnectionId)
    requires Inbound(s)
  {
    s.id < nextId && |s.stream.sent| <= |s.stream.got| <= |s.stream.sent| + 1
  }

  lemma InboundInOrder(s: Node, i: nat)
    requires Inv(s) && i < |s.conn.subs| && Inbound(s.conn.subs[i])
    ensures InOrder(s.conn.subs[i], s.conn.nextId)
  {
    hide Sum;
    var a := s.conn.subs[i];
    assert a in s.conn.subs;
    SumMember(s.conn.subs, Ids, i);
    assert Ids(a)[a.id] <= Sum(s.conn.subs, Ids)[a.id];
  }

  lemma InboundDiffer(s: Node, i: nat, j: nat)
    requires Inv(s) && i < j < |s.conn.subs| && Inbound(s.conn.subs[i]) && Inbound(s.conn.subs[j])
    ensures s.conn.subs[i].id != s.conn.subs[j].id
  {
    hide Sum;
    var a, b := s.conn.subs[i], s.conn.subs[j];
    SumPair(s.conn.subs, Ids, i, j);
    assert (Ids(a) + Ids(b))[a.id] <= Sum(s.conn.subs, Ids)[a.id] <= 1;
    assert (Ids(a) + Ids(b))[a.id] == if a.id == b.id then 2 else 1;
  }

  /** Inbound discipline over every run of a new handler: every identifier is below the next one, each inbound
      substream has received as many messages as it has replied to, or one more, and two substreams never share
      an identifier. */
  lemma InboundDiscipline(es: seq<Event>)
    requires NoCrash(Run(NEW_NODE, es).1)
    ensures var c := Run(NEW_NODE, es).0.conn;
            && (forall i :: 0 <= i < |c.subs| && Inbound(c.subs[i]) ==> InOrder(c.subs[i], c.nextId))
            && (forall i, j :: 0 <= i < j < |c.subs| && Inbound(c.subs[i]) && Inbound(c.subs[j]) ==>
                  c.subs[i].id != c.subs[j].id)
  {
    NewIsFine();
    hide Run, Inv, InOrder;
    InvariantOverRuns(NEW_NODE, es);
    var s := Run(NEW_NODE, es).0;
    forall i | 0 <= i < |s.conn.subs| && Inbound(s.conn.subs[i])
      ensures InOrder(s.conn.subs[i], s.conn.nextId)
    {
      InboundInOrder(s, i);
    }
    forall i, j | 0 <= i < j < |s.conn.subs| && Inbound(s.conn.subs[i]) && Inbound(s.conn.subs[j])
      ensures s.conn.subs[i].id != s.conn.subs[j].id
    {
      InboundDiffer(s, i, j);
    }
  }

  lemma NewIsFine()
    ensures Inv(NEW_NODE)
  {
  }

  /** At most one substream waits for the user under an identifier. */
  lemma WaitsUnique(s: Node, id: ConnectionId, i: nat, j: nat)
    requires Inv(s) && i < |s.conn.subs| && j < |s.conn.subs|
    requires Waits(s.conn.subs[i], id) && Waits(s.conn.subs[j], id)
    ensures i == j
  {
    var subs := s.conn.subs;
    if i != j {
      var (lo, hi) := if i < j then (i, j) else (j, i);
      var both := Ids(subs[lo]) + Ids(subs[hi]);
      assert both[id] == 2;
      SumPair(subs, Ids, lo, hi);
    }
  }

  /** An answer for an identifier changes only the one substream that waits under it, or nothing. */
  lemma AnswerTouchesOne(s: Node, command: Command)
    requires Inv(s) && Answer(command).Some?
    ensures var (msg, id) := Answer(command).value;
            var subs, subs' := s.conn.subs, s.conn.Inject(command).subs;
            var pos := WaitingAt(subs, id);
            && (forall k :: 0 <= k < |subs| && Waits(subs[k], id) ==> k == pos)
            && (if pos < |subs|
                then multiset(subs') == multiset(subs) - multiset{subs[pos]}
                                          + multiset{InPendingSend(id, subs[pos].stream, msg)}
                else subs' == subs)
  {
    hide Inv, RemoveAt, WaitingAt;
    var (msg, id) := Answer(command).value;
    AnswerIsLast(command);
    hide Outgoing, Answer;
    var subs := s.conn.subs;
    var pos := WaitingAt(subs, id);
    if pos < |subs| {
      Replaced(subs, pos, InPendingSend(id, subs[pos].stream, msg));
      forall k | 0 <= k < |subs| && Waits(subs[k], id)
        ensures k == pos
      {
        WaitsUnique(s, id, k, pos);
      }
    }
  }

  lemma AnswerIsLast(command: Command)
    ensures Answer(command).Some? ==> Outgoing(command).None?
  {
  }

  lemma Replaced<T>(s: seq<T>, pos: nat, x: T)
    requires pos < |s|
    ensures multiset(RemoveAt(s, pos) + [x]) == multiset(s) - multiset{s[pos]} + multiset{x}
  {
    RemoveAtFacts(s, pos);
  }

  // ---------------------------------------------------------------- without Port messages

  predicate IsPort(io: Io) {
    io.next.Message? && io.next.msg.Port?
  }

  /** No stream hands over a Port message. */
  predicate PortFree(e: Event) {
    e.Poll? ==> forall k, l :: 0 <= k < |e.ios| && 0 <= l < |e.ios[k]| ==> !IsPort(e.ios[k][l])
  }

  lemma {:induction false} VisitWithoutPort(s: SubstreamState, ios: seq<Io>, k: nat)
    requires forall l :: 0 <= l < |ios| ==> !IsPort(ios[l])
    ensures !Settle(s, ios, k).Crashed?
    decreases Rank(s)
  {
    hide Advance;
    var io := IoAt(ios, k);
    PanicExact(s, io);
    var a := Advance(s, io);
    if a.state.Some? && a.event.None? && a.again {
      RankDecreases(s, io);
      VisitWithoutPort(a.state.value, ios, k + 1);
    }
  }

  lemma {:induction false} SweepWithoutPort(subs: seq<SubstreamState>, n: nat, ios: seq<seq<Io>>)
    requires n <= |subs| && PortFree(Poll(ios))
    ensures !Sweep(subs, n, ios).result.Crash?
    decreases n
  {
    hide Settle;
    if n > 0 {
      var v := Settle(subs[n - 1], IosAt(ios, n - 1), 0);
      VisitWithoutPort(subs[n - 1], IosAt(ios, n - 1), 0);
      if v.event.None? {
        var rest := SwapRemove(subs, n - 1);
        SweepWithoutPort(if v.state.Some? then rest + [v.state.value] else rest, n - 1, ios);
      }
    }
  }

  /** A run in which no stream hands over a Port message does not panic, so all the results above hold for it. */
  lemma {:induction false} PortFreeRuns(s: Node, es: seq<Event>)
    requires forall e :: e in es ==> PortFree(e)
    ensures NoCrash(Run(s, es).1)
    decreases |es|
  {
    hide PortFree;
    if es != [] {
      if es[0].Poll? {
        SweepWithoutPort(s.conn.subs, |s.conn.subs|, es[0].ios);
      }
      hide Sweep;
      PortFreeRuns(Step(s, es[0]).0, es[1..]);
    }
  }
}
