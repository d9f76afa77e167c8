/** What every reachable state of the protocol satisfies, one pod, one message or one
    request at a time, and that every step keeps the shape of the state. */
module ProtocolInvariant {
  import opened Consistency
  import opened Protocol

  // ---- shape ----------------------------------------------------------------------

  /** The request that a waiting client waits for is its own and of the right kind. */
  ghost predicate OwnRequest(log: Log, p: PodId, c: Client)
    requires Waiting(c)
  {
    && c.req < |log|
    && log[c.req] == match c
                     case Joining(_) => JoinGroup(p)
                     case AwaitUpdate(_) => UpdateRequest(p)
                     case _ => TokenUpdateRequest(p)
  }

  ghost predicate PodShape(s: State, p: PodId)
    requires p < |s.pods|
  {
    var q := s.pods[p];
    && q.obj.self == p
    && q.run <= q.cursor <= |s.log|
    && (q.client.Absent? ==> p != s.owner && q == Pod(NewObj(p, false), Absent, [], 0, 0))
    && q.obj.reading == (if q.client.Reading? || q.client.AwaitUpdate? then 1 else 0)
    && q.obj.writing == (if q.client.Writing? then 1 else 0)
    && q.obj.wwriters == (if q.client.AwaitToken? then 1 else 0)
    && (Waiting(q.client) ==> OwnRequest(s.log, p, q.client))
  }

  /** The tickets are those of the requests delivered and not yet run, numbered in order. */
  ghost predicate TicketsShape(s: State, p: PodId)
    requires p < |s.pods|
  {
    var q := s.pods[p];
    && q.cursor <= |s.log|
    && var due := Requests(s.log, q.run, q.cursor);
       && |q.tickets| == |due|
       && q.obj.totalReq == q.obj.nextReq + |q.tickets|
       && forall t :: 0 <= t < |q.tickets| ==> q.tickets[t] == Ticket(q.obj.nextReq + t, due[t])
  }

  ghost predicate MsgShape(s: State, i: nat)
    requires i < |s.log|
  {
    var m := s.log[i];
    && m.from < |s.pods|
    && !s.pods[m.from].client.Absent?
    && (IsReply(m) || m.TokenAck? ==> m.to < |s.pods| && m.to != m.from)
  }

  ghost predicate Shape(s: State) {
    && s.owner < |s.pods|
    && (forall p :: 0 <= p < |s.pods| ==> PodShape(s, p))
    && (forall p :: 0 <= p < |s.pods| ==> TicketsShape(s, p))
    && (forall i :: 0 <= i < |s.log| ==> MsgShape(s, i))
  }

  // ---- where the token is ---------------------------------------------------------

  /** Reply `i` has not been delivered yet. */
  ghost predicate InFlight(s: State, i: nat) {
    && i < |s.log|
    && IsReply(s.log[i])
    && s.log[i].to < |s.pods|
    && s.pods[s.log[i].to].cursor <= i
  }

  ghost predicate TokenFlies(s: State, i: nat) {
    InFlight(s, i) && s.log[i].TokenUpdateReply?
  }

  ghost predicate TokenInFlight(s: State) {
    exists i: nat :: TokenFlies(s, i)
  }

  ghost function Served(s: State): nat { |TokenReceivers(s.log, |s.log|)| }

  /** The pod that the token went to last. */
  ghost function Dest(s: State): PodId { LastOr(TokenReceivers(s.log, |s.log|), s.owner) }

  ghost predicate TokenAt(s: State, p: PodId)
    requires p < |s.pods|
  {
    var q := s.pods[p];
    && q.run <= |s.log|
    && var passed := TokenRequesters(s.log, q.run);
       && (q.obj.token <==> Dest(s) == p && !TokenInFlight(s))
       && (q.obj.token ==> |passed| == Served(s))
       && (q.obj.wtoken ==> |passed| >= Served(s))
       && (!q.client.Absent? ==> (LastOr(passed, s.owner) == p <==> q.obj.token || q.obj.wtoken))
       && (q.obj.wtoken ==> q.client.AwaitToken? && q.run == q.client.req + 1)
       && (q.client.Writing? ==> q.obj.token)
       && (q.client.AwaitToken? ==>
             && q.client.req < |s.log|
             && (q.run > q.client.req || q.obj.token ==> q.obj.wtoken)
             && Served(s) <= |TokenRequesters(s.log, q.client.req)| + 1)
  }

  /** A token request that its own pod has not yet run keeps its client waiting. */
  ghost predicate OwnTicketAt(s: State, i: nat)
    requires i < |s.log|
  {
    var m := s.log[i];
    (m.TokenUpdateRequest? && m.from < |s.pods| && s.pods[m.from].run <= i) ==>
      s.pods[m.from].client == AwaitToken(i)
  }

  ghost predicate Tokens(s: State) {
    && TokenReceivers(s.log, |s.log|) <= TokenRequesters(s.log, |s.log|)
    && (forall p :: 0 <= p < |s.pods| ==> TokenAt(s, p))
    && (forall i :: 0 <= i < |s.log| ==> OwnTicketAt(s, i))
  }

  // ---- who answers which request --------------------------------------------------

  /** The pod whose turn covers request `i` has run its ticket. */
  ghost predicate Answered(s: State, i: nat)
    requires i <= |s.log|
  {
    var h := Holder(s.owner, s.log, i);
    h < |s.pods| && s.pods[h].run > i
  }

  ghost predicate RequestAt(s: State, i: nat)
    requires i < |s.log|
  {
    var m := s.log[i];
    IsRequest(m) ==>
      && Holder(s.owner, s.log, i) != m.from
      && (!Answered(s, i) ==>
            m.from < |s.pods| && Waiting(s.pods[m.from].client) && s.pods[m.from].client.req == i)
      && (m.TokenUpdateRequest? ==> (Answered(s, i) <==> |TokenRequesters(s.log, i)| < Served(s)))
  }

  ghost predicate FliesTo(s: State, i: nat, p: PodId) {
    InFlight(s, i) && s.log[i].to == p
  }

  ghost predicate WaitAt(s: State, p: PodId)
    requires p < |s.pods|
  {
    var q := s.pods[p];
    Waiting(q.client) ==>
      && q.client.req < |s.log|
      && (!Answered(s, q.client.req) ==> !Ready(q))
      && (Answered(s, q.client.req) && !Ready(q) ==> exists i: nat :: FliesTo(s, i, p))
  }

  /** A reply in flight is the only one on its way to its pod, answers the request that
      this pod waits for, and has not been overtaken. */
  ghost predicate ReplyAt(s: State, i: nat) {
    InFlight(s, i) ==>
      var q := s.pods[s.log[i].to];
      && Waiting(q.client)
      && q.client.req < i
      && Answered(s, q.client.req)
      && !Ready(q)
      && (s.log[i].TokenUpdateReply? <==> q.client.AwaitToken?)
      && (s.log[i].UpdateReply? <==> q.client.AwaitUpdate?)
      && forall j: nat :: FliesTo(s, j, s.log[i].to) ==> j == i
  }

  ghost predicate Replies(s: State) {
    && (forall i :: 0 <= i < |s.log| ==> RequestAt(s, i))
    && (forall p :: 0 <= p < |s.pods| ==> WaitAt(s, p))
    && (forall i :: 0 <= i < |s.log| ==> ReplyAt(s, i))
  }

  // ---- while the token travels ----------------------------------------------------

  ghost predicate NeedsToken(m: Message) { m.TokenUpdateReply? || m.TokenAck? || m.Invalidate? }

  /** Nothing that only a token holder sends follows a token reply in flight. */
  ghost predicate FlightAt(s: State, i: nat) {
    TokenFlies(s, i) ==> forall j :: i < j < |s.log| ==> !NeedsToken(s.log[j])
  }

  ghost predicate AckFor(s: State, p: PodId, i: nat) {
    && p < |s.pods|
    && i < |s.log|
    && if s.log[i].TokenAck? then s.log[i].to == p && s.pods[p].cursor <= i
       else TokenFlies(s, i) && s.log[i].from == p
  }

  /** A pod that waits for an acknowledgement has its token reply or the acknowledgement
      itself still under way. */
  ghost predicate AckAt(s: State, p: PodId)
    requires p < |s.pods|
  {
    s.pods[p].obj.wtokenAck ==> exists i: nat :: AckFor(s, p, i)
  }

  ghost predicate Travel(s: State) {
    && (forall i :: 0 <= i < |s.log| ==> FlightAt(s, i))
    && (forall p :: 0 <= p < |s.pods| ==> AckAt(s, p))
  }

  // ---- values ---------------------------------------------------------------------
  // This part holds of free runs too and stands on its own.

  ghost predicate ValueAt(s: State, i: nat)
    requires i < |s.log|
  {
    var m := s.log[i];
    && (IsReply(m) ==> m.val == Released(s.log, i))
    && (m.Invalidate? ==> Released(s.log, i) <= m.val && m.from < |s.pods| && m.val <= s.pods[m.from].obj.rsc)
    && (InFlight(s, i) ==> s.pods[m.to].obj.rsc <= m.val)
    && (TokenFlies(s, i) ==> forall j :: i < j < |s.log| ==> !IsReply(s.log[j]) && !s.log[j].Invalidate?)
  }

  ghost predicate PodValue(s: State, p: PodId)
    requires p < |s.pods|
  {
    var q := s.pods[p];
    && q.cursor <= |s.log|
    && q.obj.self == p
    && q.obj.writing == (if q.client.Writing? then 1 else 0)
    && (q.client.Absent? ==> !q.obj.validity)
    && (q.client.Writing? ==> q.obj.token)
    && (!q.client.Writing? ==> q.obj.rsc <= Released(s.log, |s.log|))
    && (q.obj.validity ==> Released(s.log, q.cursor) <= q.obj.rsc)
    && (q.obj.token ==> q.obj.validity && Released(s.log, |s.log|) <= q.obj.rsc)
  }

  /** Nothing that could change a token holder is on its way to it, and no other token is. */
  ghost predicate HolderAt(s: State, p: PodId)
    requires p < |s.pods|
  {
    s.pods[p].obj.token ==>
      && (forall i :: s.pods[p].cursor <= i < |s.log| && s.log[i].Invalidate? ==> s.log[i].from == p)
      && (forall i: nat :: !FliesTo(s, i, p))
      && (forall i: nat :: !TokenFlies(s, i))
      && (forall r :: 0 <= r < |s.pods| && s.pods[r].obj.token ==> r == p)
  }

  ghost predicate Values(s: State) {
    && (forall i :: 0 <= i < |s.log| ==> ValueAt(s, i))
    && (forall p :: 0 <= p < |s.pods| ==> PodValue(s, p))
    && (forall p :: 0 <= p < |s.pods| ==> HolderAt(s, p))
  }

  ghost predicate Inv(s: State) {
    Shape(s) && Tokens(s) && Replies(s) && Travel(s) && Values(s)
  }

  // ---- the shape is kept ----------------------------------------------------------

  /** `q` may replace pod `p`, with `out` sent, as far as the shape is concerned. */
  ghost predicate KeepsShape(s: State, p: PodId, q: Pod, out: seq<Message>) {
    && p < |s.pods|
    && var s' := Put(s, p, q, out);
       && PodShape(s', p)
       && TicketsShape(s', p)
       && !q.client.Absent?
       && (forall i :: |s.log| <= i < |s'.log| ==> MsgShape(s', i))
  }

  lemma ShapeKept(s: State, p: PodId, q: Pod, out: seq<Message>)
    requires Shape(s) && KeepsShape(s, p, q, out)
    ensures Shape(Put(s, p, q, out))
  {
    var s' := Put(s, p, q, out);
    forall r | 0 <= r < |s'.pods| ensures PodShape(s', r) && TicketsShape(s', r) {
      if r != p {
        assert PodShape(s, r) && TicketsShape(s, r);
        SameRequests(s.log, out, s.pods[r].run, s.pods[r].cursor);
      }
    }
    forall i | 0 <= i < |s'.log| ensures MsgShape(s', i) {
      if i < |s.log| {
        assert MsgShape(s, i);
      }
    }
  }

  /** The tickets of a pod that neither delivers nor runs one keep their shape. */
  lemma SameTickets(s: State, p: PodId, q: Pod, out: seq<Message>)
    requires Shape(s) && p < |s.pods|
    requires q == s.pods[p].(obj := q.obj, client := q.client)
    requires q.obj.totalReq == s.pods[p].obj.totalReq && q.obj.nextReq == s.pods[p].obj.nextReq
    ensures TicketsShape(Put(s, p, q, out), p)
  {
    assert PodShape(s, p) && TicketsShape(s, p);
    SameRequests(s.log, out, q.run, q.cursor);
  }

  lemma JoinShape(s: State, p: PodId)
    requires Shape(s) && Enabled(s, p, Join)
    ensures Shape(Apply(s, p, Join))
  {
    assert PodShape(s, p) && TicketsShape(s, p);
    var s' := Apply(s, p, Join);
    var q := s'.pods[p];
    assert KeepsShape(s, p, q, [JoinGroup(p)]);
    ShapeKept(s, p, q, [JoinGroup(p)]);
  }

  lemma ClientShape(s: State, p: PodId, a: Action)
    requires Shape(s) && Enabled(s, p, a) && !a.Join? && !a.Deliver? && !a.Run?
    ensures Shape(Apply(s, p, a))
  {
    assert PodShape(s, p) && TicketsShape(s, p);
    var q := Apply(s, p, a).pods[p];
    var out := Apply(s, p, a).log[|s.log|..];
    assert Apply(s, p, a).log == s.log + out;
    SameTickets(s, p, q, out);
    assert KeepsShape(s, p, q, out);
    ShapeKept(s, p, q, out);
  }

  lemma DeliverRequestShape(s: State, p: PodId)
    requires Shape(s) && p < |s.pods| && !s.pods[p].client.Absent?
    requires s.pods[p].cursor < |s.log| && IsRequest(s.log[s.pods[p].cursor])
    ensures Shape(Delivered(s, p))
  {
    assert PodShape(s, p) && TicketsShape(s, p);
    var q' := Delivered(s, p).pods[p];
    assert s.log + [] == s.log;
    assert KeepsShape(s, p, q', []);
    ShapeKept(s, p, q', []);
  }

  lemma DeliverMessageShape(s: State, p: PodId, o: Obj, out: seq<Message>)
    requires Shape(s) && p < |s.pods| && !s.pods[p].client.Absent?
    requires s.pods[p].cursor < |s.log| && !IsRequest(s.log[s.pods[p].cursor])
    requires SameThreads(s.pods[p].obj, o)
    requires o.totalReq == s.pods[p].obj.totalReq && o.nextReq == s.pods[p].obj.nextReq
    requires out == [] || exists r: nat :: out == [TokenAck(p, r)] && r < |s.pods| && r != p
    ensures Shape(Put(s, p, s.pods[p].(cursor := s.pods[p].cursor + 1, obj := o), out))
  {
    assert PodShape(s, p) && TicketsShape(s, p);
    var q' := s.pods[p].(cursor := s.pods[p].cursor + 1, obj := o);
    SameRequests(s.log, out, q'.run, q'.cursor);
    assert KeepsShape(s, p, q', out);
    ShapeKept(s, p, q', out);
  }

  lemma DeliverShape(s: State, p: PodId)
    requires Shape(s) && Possible(s, p, Deliver)
    ensures Shape(Apply(s, p, Deliver))
  {
    var q, c := s.pods[p], s.pods[p].cursor;
    if IsRequest(s.log[c]) {
      DeliverRequestShape(s, p);
    } else if Addressed(s.log[c], p) {
      HandlerKeepsThreads(q.obj, s.log[c]);
      assert MsgShape(s, c) && PodShape(s, p);
      DeliverMessageShape(s, p, Handle(q.obj, s.log[c]), HandleSends(q.obj, s.log[c]));
    } else {
      DeliverMessageShape(s, p, q.obj, []);
    }
  }

  /** Only the oldest ticket of a pod can run. */
  lemma OnlyFirstTicketReady(s: State, p: PodId, t: nat)
    requires p < |s.pods| && TicketsShape(s, p) && TicketReady(s.log, s.pods[p], t)
    ensures t == 0 && s.pods[p].tickets[0].pos == Requests(s.log, s.pods[p].run, s.pods[p].cursor)[0]
  {}

  /** Running the oldest ticket leaves the tickets of the remaining requests. */
  lemma RestOfTickets(s: State, p: PodId, q: Pod, out: seq<Message>)
    requires Shape(s) && p < |s.pods| && s.pods[p].tickets != []
    requires q == s.pods[p].(obj := q.obj, tickets := s.pods[p].tickets[1..], run := s.pods[p].tickets[0].pos + 1)
    requires q.obj.totalReq == s.pods[p].obj.totalReq && q.obj.nextReq == s.pods[p].obj.nextReq + 1
    ensures TicketsShape(Put(s, p, q, out), p) && q.run <= q.cursor
  {
    assert TicketsShape(s, p);
    FirstRequest(s.log, s.pods[p].run, q.cursor);
    SameRequests(s.log, out, q.run, q.cursor);
  }

  lemma TicketShape(s: State, p: PodId, o: Obj, out: seq<Message>, i: nat)
    requires Shape(s) && p < |s.pods| && !s.pods[p].client.Absent? && s.pods[p].tickets != []
    requires i == s.pods[p].tickets[0].pos
    requires SameThreads(s.pods[p].obj, o)
    requires o.totalReq == s.pods[p].obj.totalReq && o.nextReq == s.pods[p].obj.nextReq + 1
    requires |out| <= 1
    requires out != [] ==> IsReply(out[0]) && out[0].from == p && out[0].to < |s.pods| && out[0].to != p
    ensures Shape(Put(s, p, s.pods[p].(obj := o, tickets := s.pods[p].tickets[1..], run := i + 1), out))
  {
    assert PodShape(s, p) && TicketsShape(s, p);
    var q' := s.pods[p].(obj := o, tickets := s.pods[p].tickets[1..], run := i + 1);
    RestOfTickets(s, p, q', out);
    assert KeepsShape(s, p, q', out);
    ShapeKept(s, p, q', out);
  }

  lemma RunShape(s: State, p: PodId, t: nat)
    requires Shape(s) && Enabled(s, p, Run(t))
    ensures Shape(Apply(s, p, Run(t)))
  {
    assert PodShape(s, p) && TicketsShape(s, p);
    OnlyFirstTicketReady(s, p, t);
    var q := s.pods[p];
    var i := q.tickets[0].pos;
    assert MsgShape(s, i);
    TicketKeepsThreads(q.obj, s.log[i]);
    assert q.tickets[..0] + q.tickets[1..] == q.tickets[1..];
    TicketShape(s, p, RunTicket(q.obj, s.log[i]), RunTicketSends(q.obj, s.log[i]), i);
  }

  lemma ShapeStep(s: State, p: PodId, a: Action)
    requires Shape(s) && Enabled(s, p, a)
    ensures Shape(Apply(s, p, a))
  {
    match a
    case Join => JoinShape(s, p);
    case Deliver => DeliverShape(s, p);
    case Run(t) => RunShape(s, p, t);
    case _ => ClientShape(s, p, a);
  }
}
