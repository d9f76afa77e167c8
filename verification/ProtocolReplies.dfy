/** Every step keeps the invariants on requests and replies, and on what follows a token in
    flight. */
module ProtocolReplies {
  import opened Consistency
  import opened Protocol
  import opened ProtocolInvariant
  import opened ProtocolTokens

  // ---- steps that neither ask nor answer ------------------------------------------

  ghost predicate RepliesQuiet(s: State, p: PodId, q: Pod, out: seq<Message>) {
    && p < |s.pods|
    && var q0 := s.pods[p];
       && (out == [] || (|out| == 1 && (out[0].Invalidate? || out[0].TokenAck?)))
       && q.run == q0.run
       && (q.client == q0.client || (!Waiting(q.client) && !Waiting(q0.client)))
       && (Waiting(q.client) ==> Ready(q) == Ready(q0))
       && (q.cursor == q0.cursor
           || (q.cursor == q0.cursor + 1 <= |s.log| && !(IsReply(s.log[q0.cursor]) && s.log[q0.cursor].to == p)))
  }

  lemma QuietFlights(s: State, p: PodId, q: Pod, out: seq<Message>)
    requires RepliesQuiet(s, p, q, out)
    ensures forall i: nat :: InFlight(Put(s, p, q, out), i) <==> InFlight(s, i)
    ensures forall i: nat, r: PodId :: FliesTo(Put(s, p, q, out), i, r) <==> FliesTo(s, i, r)
  {
    var s' := Put(s, p, q, out);
    forall i: nat ensures InFlight(s', i) <==> InFlight(s, i) {
      if i < |s.log| {
        assert s'.log[i] == s.log[i];
      }
    }
  }

  lemma RepliesQuietKept(s: State, p: PodId, q: Pod, out: seq<Message>)
    requires Shape(s) && Replies(s) && RepliesQuiet(s, p, q, out)
    ensures Replies(Put(s, p, q, out))
  {
    var s' := Put(s, p, q, out);
    Append(s.log, out);
    SameReceivers(s, p, q, out);
    QuietFlights(s, p, q, out);
    forall i: nat | i <= |s.log| ensures Answered(s', i) <==> Answered(s, i) {}
    forall i | 0 <= i < |s'.log| ensures RequestAt(s', i) {
      if i < |s.log| {
        assert RequestAt(s, i) && MsgShape(s, i);
      }
    }
    forall r | 0 <= r < |s'.pods| ensures WaitAt(s', r) {
      assert WaitAt(s, r);
    }
    forall i | 0 <= i < |s'.log| ensures ReplyAt(s', i) {
      if i < |s.log| {
        assert ReplyAt(s, i);
      }
    }
  }

  // ---- a new request --------------------------------------------------------------

  lemma {:induction false} LastTokenRequest(owner: PodId, log: Log, n: nat) returns (i: nat)
    requires n <= |log| && TokenRequesters(log, n) != []
    ensures i < n && log[i] == TokenUpdateRequest(Holder(owner, log, n))
    ensures |TokenRequesters(log, i)| + 1 == |TokenRequesters(log, n)|
  {
    if log[n - 1].TokenUpdateRequest? {
      i := n - 1;
    } else {
      i := LastTokenRequest(owner, log, n - 1);
    }
  }

  lemma {:induction false} NoTokenRepliesIn(log: Log, a: nat, b: nat)
    requires a <= b <= |log| && forall i :: a <= i < b ==> !log[i].TokenUpdateReply?
    ensures TokenReceivers(log, b) == TokenReceivers(log, a)
    decreases b
  {
    if a < b {
      NoTokenRepliesIn(log, a, b - 1);
    }
  }

  /** A token in flight is on its way to the pod served last. */
  lemma FliesToDest(s: State, i: nat)
    requires Travel(s) && TokenFlies(s, i)
    ensures Dest(s) == s.log[i].to
  {
    assert FlightAt(s, i);
    NoTokenRepliesIn(s.log, i + 1, |s.log|);
  }

  /** A pod whose client waits for nothing and that lacks the token is not the last one to
      have asked for it: whatever it asks now is somebody else's to answer. */
  lemma NotHolderWithoutToken(s: State, p: PodId)
    requires Shape(s) && Tokens(s) && Replies(s) && Travel(s)
    requires p < |s.pods| && !s.pods[p].client.Absent? && !Waiting(s.pods[p].client) && !s.pods[p].obj.token
    ensures Holder(s.owner, s.log, |s.log|) != p
  {
    var n := |s.log|;
    assert TokenAt(s, p);
    if TokenRequesters(s.log, n) != [] {
      var i := LastTokenRequest(s.owner, s.log, n);
      assert RequestAt(s, i);
      if s.log[i].from == p {
        SameTurns(s, n);
      }
    }
    if Dest(s) == p {
      var j: nat :| TokenFlies(s, j);
      FliesToDest(s, j);
      assert ReplyAt(s, j);
    }
  }

  lemma RequestReplies(s: State, p: PodId, q: Pod, m: Message)
    requires Shape(s) && Tokens(s) && Replies(s)
    requires p < |s.pods| && !Waiting(s.pods[p].client)
    requires IsRequest(m) && m.from == p && Holder(s.owner, s.log, |s.log|) != p
    requires Waiting(q.client) && q.client.req == |s.log| && !Ready(q)
    requires q.run == s.pods[p].run || (q.run == |s.log| && s.pods[p].client.Absent?)
    requires q.cursor == s.pods[p].cursor || q.cursor == |s.log|
    ensures Replies(Put(s, p, q, [m]))
  {
    var s', n := Put(s, p, q, [m]), |s.log|;
    Append(s.log, [m]);
    assert s'.log[n] == m;
    assert TokenReceivers(s'.log, n + 1) == TokenReceivers(s.log, n);
    NewRequestFlights(s, p, q, m);
    NewRequestAnswered(s, p, q, m);
    forall i | 0 <= i < |s'.log| ensures RequestAt(s', i) {
      if i < n {
        assert RequestAt(s, i) && MsgShape(s, i);
      }
    }
    forall r | 0 <= r < |s'.pods| ensures WaitAt(s', r) {
      assert WaitAt(s, r) && PodShape(s, r);
    }
    forall i | 0 <= i < |s'.log| ensures ReplyAt(s', i) {
      if i < n {
        assert ReplyAt(s, i);
      }
    }
  }

  lemma NewRequestFlights(s: State, p: PodId, q: Pod, m: Message)
    requires Replies(s) && p < |s.pods| && !Waiting(s.pods[p].client) && IsRequest(m)
    requires q.cursor == s.pods[p].cursor || q.cursor == |s.log|
    ensures forall i: nat :: InFlight(Put(s, p, q, [m]), i) <==> InFlight(s, i)
    ensures forall i: nat, r: PodId :: FliesTo(Put(s, p, q, [m]), i, r) <==> FliesTo(s, i, r)
  {
    var s' := Put(s, p, q, [m]);
    forall i: nat ensures InFlight(s', i) <==> InFlight(s, i) {
      if i < |s.log| {
        assert s'.log[i] == s.log[i];
        NothingFliesToIdle(s, p, i);
      }
    }
  }

  lemma NewRequestAnswered(s: State, p: PodId, q: Pod, m: Message)
    requires Shape(s) && p < |s.pods| && IsRequest(m) && Holder(s.owner, s.log, |s.log|) != p
    requires q.run == s.pods[p].run || (q.run == |s.log| && s.pods[p].client.Absent?)
    ensures forall i: nat :: i < |s.log| ==> (Answered(Put(s, p, q, [m]), i) <==> Answered(s, i))
    ensures !Answered(Put(s, p, q, [m]), |s.log|)
  {
    var s', n := Put(s, p, q, [m]), |s.log|;
    Append(s.log, [m]);
    forall i: nat | i <= n ensures i < n ==> (Answered(s', i) <==> Answered(s, i)) {
      if s.pods[p].client.Absent? {
        AbsentNeverHolds(s, p, i);
      }
    }
    var h := Holder(s.owner, s.log, n);
    if h < |s.pods| {
      assert PodShape(s, h);
    }
  }

  // ---- a waiting client goes on ---------------------------------------------------

  lemma ResumeReplies(s: State, p: PodId)
    requires Shape(s) && Replies(s) && Enabled(s, p, Resume)
    ensures Replies(Resumed(s, p))
  {
    var s' := Resumed(s, p);
    assert s'.log == s.log;
    assert WaitAt(s, p) && PodShape(s, p);
    forall i: nat ensures InFlight(s', i) <==> InFlight(s, i) {}
    forall i: nat, r: PodId ensures FliesTo(s', i, r) <==> FliesTo(s, i, r) {}
    forall i: nat | i <= |s.log| ensures Answered(s', i) <==> Answered(s, i) {}
    forall i | 0 <= i < |s'.log| ensures RequestAt(s', i) {
      assert RequestAt(s, i);
    }
    forall r | 0 <= r < |s'.pods| ensures WaitAt(s', r) {
      assert WaitAt(s, r);
    }
    forall i | 0 <= i < |s'.log| ensures ReplyAt(s', i) {
      assert ReplyAt(s, i);
    }
  }

  // ---- a reply arrives ------------------------------------------------------------

  lemma ArriveReplies(s: State, p: PodId, q: Pod, out: seq<Message>)
    requires Shape(s) && Replies(s) && p < |s.pods| && s.pods[p].cursor < |s.log|
    requires FliesTo(s, s.pods[p].cursor, p)
    requires q == s.pods[p].(obj := q.obj, cursor := s.pods[p].cursor + 1)
    requires Waiting(q.client) ==> Ready(q)
    requires out == [] || (|out| == 1 && out[0].TokenAck?)
    ensures Replies(Put(s, p, q, out))
  {
    var s', c := Put(s, p, q, out), s.pods[p].cursor;
    assert ReplyAt(s, c);
    Append(s.log, out);
    SameReceivers(s, p, q, out);
    forall i: nat ensures InFlight(s', i) <==> InFlight(s, i) && i != c {
      if i < |s.log| {
        assert s'.log[i] == s.log[i];
        assert FliesTo(s, i, p) ==> i == c;
      }
    }
    forall i: nat, r: PodId | r != p ensures FliesTo(s', i, r) <==> FliesTo(s, i, r) {}
    forall i: nat | i <= |s.log| ensures Answered(s', i) <==> Answered(s, i) {}
    forall i | 0 <= i < |s'.log| ensures RequestAt(s', i) {
      if i < |s.log| {
        assert RequestAt(s, i) && MsgShape(s, i);
      }
    }
    forall r | 0 <= r < |s'.pods| ensures WaitAt(s', r) {
      assert WaitAt(s, r);
    }
    forall i | 0 <= i < |s'.log| ensures ReplyAt(s', i) {
      if i < |s.log| {
        assert ReplyAt(s, i);
        assert InFlight(s, i) && s.log[i].to == p ==> FliesTo(s, i, p);
      }
    }
  }

  // ---- tickets --------------------------------------------------------------------

  /** Running the ticket of request `i` changes no answer but that to `i`. */
  lemma RunAnswers(s: State, p: PodId, i: nat, q: Pod, out: seq<Message>)
    requires Shape(s) && RunsNow(s, p, i) && q.run == i + 1
    ensures var s' := Put(s, p, q, out);
      forall j: nat :: j < |s.log| && IsRequest(s.log[j]) ==>
        (Answered(s', j) <==> Answered(s, j) || (j == i && Holder(s.owner, s.log, i) == p))
    ensures Holder(s.owner, s.log, i) == p ==> !Answered(s, i)
  {
    Append(s.log, out);
  }

  /** A ticket run by a pod whose turn it is not. */
  lemma PassReplies(s: State, p: PodId, i: nat, q: Pod)
    requires Shape(s) && Replies(s) && RunsNow(s, p, i) && Holder(s.owner, s.log, i) != p
    requires q == s.pods[p].(obj := q.obj, tickets := q.tickets, run := i + 1)
    requires Ready(q) == Ready(s.pods[p])
    ensures Replies(Put(s, p, q, []))
  {
    var s' := Put(s, p, q, []);
    assert s'.log == s.log;
    RunAnswers(s, p, i, q, []);
    forall j: nat ensures InFlight(s', j) <==> InFlight(s, j) {}
    forall j: nat, r: PodId ensures FliesTo(s', j, r) <==> FliesTo(s, j, r) {}
    forall j | 0 <= j < |s'.log| ensures RequestAt(s', j) {
      assert RequestAt(s, j) && MsgShape(s, j);
    }
    forall r | 0 <= r < |s'.pods| ensures WaitAt(s', r) {
      assert WaitAt(s, r) && PodShape(s, r);
    }
    forall j | 0 <= j < |s'.log| ensures ReplyAt(s', j) {
      assert ReplyAt(s, j);
      if InFlight(s, j) {
        assert PodShape(s, s.log[j].to);
      }
    }
  }

  /** Token requests are told apart by how many precede them. */
  lemma DistinctTurns(log: Log, i: nat, j: nat)
    requires i < |log| && j < |log| && i != j
    requires log[i].TokenUpdateRequest? && log[j].TokenUpdateRequest?
    ensures |TokenRequesters(log, i)| != |TokenRequesters(log, j)|
  {
    if i < j {
      RequestersGrow(log, i + 1, j);
    } else {
      RequestersGrow(log, j + 1, i);
    }
  }

  ghost predicate ReplyTo(m: Message, r: Message) {
    && (m.TokenUpdateRequest? ==> r.TokenUpdateReply?)
    && (m.UpdateRequest? ==> r.UpdateReply?)
    && (m.JoinGroup? ==> r.CreateReplica?)
    && IsReply(r) && r.to == m.from
  }

  /** The pod whose turn it is answers: its reply is the only one on its way. */
  lemma AnswerFlights(s: State, p: PodId, i: nat, q: Pod, m: Message)
    requires Shape(s) && Replies(s) && RunsNow(s, p, i) && Holder(s.owner, s.log, i) == p
    requires q.cursor == s.pods[p].cursor && ReplyTo(s.log[i], m)
    ensures var s', n := Put(s, p, q, [m]), |s.log|;
      && (forall j: nat :: InFlight(s', j) <==> InFlight(s, j) || j == n)
      && (forall j: nat, r: PodId :: FliesTo(s', j, r) <==> FliesTo(s, j, r) || (j == n && r == m.to))
      && (forall j: nat :: !FliesTo(s, j, m.to))
  {
    var s', n := Put(s, p, q, [m]), |s.log|;
    RunAnswers(s, p, i, q.(run := i + 1), []);
    assert RequestAt(s, i) && MsgShape(s, i) && PodShape(s, m.to) && WaitAt(s, m.to);
    forall j: nat ensures InFlight(s', j) <==> InFlight(s, j) || j == n {
      if j < n {
        assert s'.log[j] == s.log[j];
      }
    }
    forall j: nat ensures !FliesTo(s, j, m.to) {
      if j < n {
        assert ReplyAt(s, j);
      }
    }
  }

  lemma AnswerRequests(s: State, p: PodId, i: nat, q: Pod, m: Message)
    requires Shape(s) && Tokens(s) && Replies(s) && RunsNow(s, p, i) && Holder(s.owner, s.log, i) == p
    requires s.pods[p].obj.token && ReplyTo(s.log[i], m)
    requires q == s.pods[p].(obj := q.obj, tickets := q.tickets, run := i + 1)
    ensures forall j :: 0 <= j <= |s.log| ==> RequestAt(Put(s, p, q, [m]), j)
  {
    var s', n := Put(s, p, q, [m]), |s.log|;
    Append(s.log, [m]);
    RunAnswers(s, p, i, q, [m]);
    HolderIsDest(s, p, i);
    assert s'.log[n] == m;
    forall j | 0 <= j <= n ensures RequestAt(s', j) {
      if j < n {
        assert RequestAt(s, j) && MsgShape(s, j);
        if j != i && s.log[j].TokenUpdateRequest? && s.log[i].TokenUpdateRequest? {
          DistinctTurns(s.log, i, j);
        }
      }
    }
  }

  lemma AnswerWaits(s: State, p: PodId, i: nat, q: Pod, m: Message)
    requires Shape(s) && Tokens(s) && Replies(s) && RunsNow(s, p, i) && Holder(s.owner, s.log, i) == p
    requires s.pods[p].obj.token && ReplyTo(s.log[i], m)
    requires q == s.pods[p].(obj := q.obj, tickets := q.tickets, run := i + 1)
    requires !Waiting(q.client) || Ready(q) == Ready(s.pods[p])
    ensures forall r :: 0 <= r < |s.pods| ==> WaitAt(Put(s, p, q, [m]), r)
  {
    var s', n := Put(s, p, q, [m]), |s.log|;
    RunAnswers(s, p, i, q, [m]);
    AnswerFlights(s, p, i, q, m);
    assert RequestAt(s, i) && MsgShape(s, i) && PodShape(s, m.to) && WaitAt(s, m.to);
    forall r | 0 <= r < |s'.pods| ensures WaitAt(s', r) {
      assert WaitAt(s, r) && PodShape(s, r);
      assert r == m.to ==> FliesTo(s', n, r);
    }
  }

  lemma AnswerReplies(s: State, p: PodId, i: nat, q: Pod, m: Message)
    requires Shape(s) && Tokens(s) && Replies(s) && RunsNow(s, p, i) && Holder(s.owner, s.log, i) == p
    requires s.pods[p].obj.token && ReplyTo(s.log[i], m)
    requires q == s.pods[p].(obj := q.obj, tickets := q.tickets, run := i + 1)
    requires !Waiting(q.client) || Ready(q) == Ready(s.pods[p])
    ensures Replies(Put(s, p, q, [m]))
  {
    var s', n := Put(s, p, q, [m]), |s.log|;
    RunAnswers(s, p, i, q, [m]);
    AnswerFlights(s, p, i, q, m);
    AnswerRequests(s, p, i, q, m);
    AnswerWaits(s, p, i, q, m);
    assert s'.log[n] == m;
    assert RequestAt(s, i) && MsgShape(s, i) && PodShape(s, m.to) && WaitAt(s, m.to);
    forall j | 0 <= j < |s'.log| ensures ReplyAt(s', j) {
      if j < n {
        assert ReplyAt(s, j);
        if InFlight(s, j) {
          assert PodShape(s, s.log[j].to) && FliesTo(s, j, s.log[j].to);
        }
      }
    }
  }

  // ---- every step -----------------------------------------------------------------

  lemma JoinReplies(s: State, p: PodId)
    requires Shape(s) && Tokens(s) && Replies(s) && Enabled(s, p, Join)
    ensures Replies(Joined(s, p))
  {
    assert PodShape(s, p);
    AbsentNeverHolds(s, p, |s.log|);
    RequestReplies(s, p, Joined(s, p).pods[p], JoinGroup(p));
  }

  lemma ClientReplies(s: State, p: PodId, a: Action)
    requires Inv(s) && Enabled(s, p, a)
    requires a.AcquireRead? || a.ReleaseRead? || a.AcquireWrite? || a.Mutate? || a.ReleaseWrite?
    ensures Replies(Apply(s, p, a))
  {
    var s' := Apply(s, p, a);
    var q := s'.pods[p];
    assert PodShape(s, p) && PodValue(s, p);
    if Waiting(q.client) {
      NotHolderWithoutToken(s, p);
      RequestReplies(s, p, q, if a.AcquireRead? then UpdateRequest(p) else TokenUpdateRequest(p));
    } else {
      var out := s'.log[|s.log|..];
      assert s'.log == s.log + out;
      RepliesQuietKept(s, p, q, out);
    }
  }

  /** What the messages that bring nothing do to the waiting condition. */
  lemma HandlerKeepsWaiting(o: Obj, m: Message)
    requires m.Invalidate? || m.TokenAck?
    ensures Handle(o, m) == o.(validity := o.validity && m.TokenAck?, wtokenAck := o.wtokenAck && m.Invalidate?)
    ensures HandleSends(o, m) == []
  {}

  lemma DeliverReplies(s: State, p: PodId)
    requires Shape(s) && Replies(s) && Possible(s, p, Deliver) && !Ready(s.pods[p])
    ensures Replies(Delivered(s, p))
  {
    var s', c := Delivered(s, p), s.pods[p].cursor;
    var m, q := s.log[c], s'.pods[p];
    if IsReply(m) && m.to == p {
      assert FliesTo(s, c, p);
      assert ReplyAt(s, c);
      ArriveReplies(s, p, q, if m.TokenUpdateReply? then [TokenAck(s.pods[p].obj.self, m.from)] else []);
    } else {
      if !IsRequest(m) && Addressed(m, p) {
        HandlerKeepsWaiting(s.pods[p].obj, m);
      }
      assert s' == Put(s, p, q, []);
      RepliesQuietKept(s, p, q, []);
    }
  }

  lemma TicketKeepsWaiting(o: Obj, m: Message)
    requires IsRequest(m) && (m.from == o.self || !o.token)
    ensures RunTicketSends(o, m) == []
    ensures RunTicket(o, m).token == o.token
    ensures RunTicket(o, m).validity == o.validity && RunTicket(o, m).hasRsc == o.hasRsc
  {}

  lemma TicketAnswers(o: Obj, m: Message)
    requires IsRequest(m) && m.from != o.self && o.token && o.validity
    ensures |RunTicketSends(o, m)| == 1 && ReplyTo(m, RunTicketSends(o, m)[0])
    ensures RunTicketSends(o, m)[0].from == o.self && RunTicketSends(o, m)[0].val == o.rsc
    ensures RunTicket(o, m).validity == o.validity && RunTicket(o, m).hasRsc == o.hasRsc
  {}

  lemma RunReplies(s: State, p: PodId, t: nat)
    requires Inv(s) && Enabled(s, p, Run(t))
    ensures Replies(TicketRun(s, p, t))
  {
    RunFacts(s, p, t);
    assert PodShape(s, p) && PodValue(s, p) && TokenAt(s, p);
    var i := s.pods[p].tickets[t].pos;
    var s', o, m := TicketRun(s, p, t), s.pods[p].obj, s.log[i];
    var q, out := s'.pods[p], RunTicketSends(o, m);
    assert s' == Put(s, p, q, out);
    if m.from == p {
      assert RequestAt(s, i);
      OwnTicketWithoutToken(s, p, i);
    } else {
      HoldsByTurn(s, p, i);
    }
    if o.token {
      TicketAnswers(o, m);
      assert out == [out[0]];
      AnswerReplies(s, p, i, q, out[0]);
    } else {
      TicketKeepsWaiting(o, m);
      PassReplies(s, p, i, q);
    }
  }

  lemma RepliesStep(s: State, p: PodId, a: Action)
    requires Inv(s) && Enabled(s, p, a)
    ensures Replies(Apply(s, p, a))
  {
    match a
    case Join => JoinReplies(s, p);
    case Resume => ResumeReplies(s, p);
    case Deliver => DeliverReplies(s, p);
    case Run(t) => RunReplies(s, p, t);
    case _ => ClientReplies(s, p, a);
  }

  // ---- while the token travels ----------------------------------------------------

  ghost predicate SameTokenFlights(s: State, s': State) {
    forall i: nat :: TokenFlies(s', i) <==> TokenFlies(s, i)
  }

  /** The step sends nothing that needs the token and hides no acknowledgement. */
  ghost predicate TravelQuiet(s: State, p: PodId, q: Pod, out: seq<Message>) {
    && p < |s.pods|
    && var q0 := s.pods[p];
       && (out == [] || (|out| == 1 && !NeedsToken(out[0])))
       && (q.obj.wtokenAck ==>
             && q0.obj.wtokenAck
             && (q.cursor == q0.cursor
                 || (q.cursor == q0.cursor + 1 <= |s.log|
                     && !(s.log[q0.cursor].TokenAck? && s.log[q0.cursor].to == p))))
  }

  lemma TravelQuietKept(s: State, p: PodId, q: Pod, out: seq<Message>)
    requires Travel(s) && TravelQuiet(s, p, q, out)
    requires SameTokenFlights(s, Put(s, p, q, out))
    ensures Travel(Put(s, p, q, out))
  {
    var s' := Put(s, p, q, out);
    forall i | 0 <= i < |s'.log| ensures FlightAt(s', i) {
      if i < |s.log| {
        assert FlightAt(s, i);
        assert TokenFlies(s', i) <==> TokenFlies(s, i);
      }
    }
    forall r | 0 <= r < |s'.pods| ensures AckAt(s', r) {
      assert AckAt(s, r);
      if s'.pods[r].obj.wtokenAck {
        var i: nat :| AckFor(s, r, i);
        assert TokenFlies(s', i) <==> TokenFlies(s, i);
        assert AckFor(s', r, i);
      }
    }
  }

  /** Only the token holder may send an invalidation, and then no token is in flight. */
  lemma InvalidateTravel(s: State, p: PodId, q: Pod, m: Message)
    requires Tokens(s) && Travel(s) && p < |s.pods| && s.pods[p].obj.token && m.Invalidate?
    requires q.cursor == s.pods[p].cursor && q.obj.wtokenAck == s.pods[p].obj.wtokenAck
    ensures Travel(Put(s, p, q, [m]))
  {
    var s' := Put(s, p, q, [m]);
    assert TokenAt(s, p);
    forall i: nat ensures !TokenFlies(s', i) {
      assert !TokenFlies(s, i);
    }
    forall r | 0 <= r < |s'.pods| ensures AckAt(s', r) {
      assert AckAt(s, r);
      if s'.pods[r].obj.wtokenAck {
        var i: nat :| AckFor(s, r, i);
        assert AckFor(s', r, i);
      }
    }
  }

  lemma HandOverTravel(s: State, p: PodId, q: Pod, m: Message)
    requires Shape(s) && Tokens(s) && Travel(s) && p < |s.pods| && s.pods[p].obj.token
    requires m.TokenUpdateReply? && m.from == p && m.to < |s.pods| && m.to != p
    requires q.cursor == s.pods[p].cursor
    ensures Travel(Put(s, p, q, [m]))
  {
    var s', n := Put(s, p, q, [m]), |s.log|;
    assert s'.log[n] == m;
    assert TokenAt(s, p) && PodShape(s, m.to);
    forall i: nat ensures TokenFlies(s', i) <==> i == n {
      assert !TokenFlies(s, i);
    }
    forall r | 0 <= r < |s'.pods| ensures AckAt(s', r) {
      assert AckAt(s, r);
      if r == p {
        assert AckFor(s', r, n);
      } else if s'.pods[r].obj.wtokenAck {
        var i: nat :| AckFor(s, r, i);
        assert !TokenFlies(s, i);
        assert AckFor(s', r, i);
      }
    }
  }

  /** The arriving token is acknowledged to the pod that sent it. */
  lemma ArriveTravel(s: State, p: PodId, q: Pod)
    requires Shape(s) && Travel(s) && p < |s.pods| && s.pods[p].cursor < |s.log|
    requires TokenFlies(s, s.pods[p].cursor) && s.log[s.pods[p].cursor].to == p
    requires q == s.pods[p].(obj := q.obj, cursor := s.pods[p].cursor + 1)
    requires q.obj.wtokenAck == s.pods[p].obj.wtokenAck
    ensures Travel(Put(s, p, q, [TokenAck(p, s.log[s.pods[p].cursor].from)]))
  {
    var c, n := s.pods[p].cursor, |s.log|;
    var s' := Put(s, p, q, [TokenAck(p, s.log[c].from)]);
    NoAckPending(s, p);
    assert MsgShape(s, c);
    assert s'.log[n] == TokenAck(p, s.log[c].from);
    forall i: nat ensures !TokenFlies(s', i) {
      if TokenFlies(s, i) {
        OneFlight(s, c, i);
      }
    }
    forall r | 0 <= r < |s'.pods| ensures AckAt(s', r) {
      assert AckAt(s, r) && PodShape(s, r);
      if s'.pods[r].obj.wtokenAck {
        var i: nat :| AckFor(s, r, i);
        if TokenFlies(s, i) {
          OneFlight(s, c, i);
          assert AckFor(s', r, n);
        } else {
          assert AckFor(s', r, i);
        }
      }
    }
  }

  // ---- every step -----------------------------------------------------------------

  lemma JoinTravel(s: State, p: PodId)
    requires Shape(s) && Replies(s) && Travel(s) && Enabled(s, p, Join)
    ensures Travel(Joined(s, p))
  {
    var s' := Joined(s, p);
    assert PodShape(s, p);
    forall i: nat ensures TokenFlies(s', i) <==> TokenFlies(s, i) {
      if i < |s.log| {
        NothingFliesToIdle(s, p, i);
      }
    }
    TravelQuietKept(s, p, s'.pods[p], [JoinGroup(p)]);
  }

  lemma ClientTravel(s: State, p: PodId, a: Action)
    requires Inv(s) && Enabled(s, p, a)
    requires a.AcquireRead? || a.ReleaseRead? || a.AcquireWrite? || a.Mutate? || a.ReleaseWrite? || a.Resume?
    ensures Travel(Apply(s, p, a))
  {
    var s' := Apply(s, p, a);
    var q, out := s'.pods[p], s'.log[|s.log|..];
    assert s'.log == s.log + out;
    assert s' == Put(s, p, q, out);
    if a.ReleaseWrite? {
      assert TokenAt(s, p);
      assert out == [out[0]];
      InvalidateTravel(s, p, q, out[0]);
    } else {
      forall i: nat ensures TokenFlies(s', i) <==> TokenFlies(s, i) {}
      TravelQuietKept(s, p, q, out);
    }
  }

  lemma HandlerKeepsAck(o: Obj, m: Message)
    requires !IsRequest(m) && !m.TokenUpdateReply?
    ensures Handle(o, m).wtokenAck == (o.wtokenAck && !m.TokenAck?)
    ensures HandleSends(o, m) == []
  {}

  lemma DeliverTravel(s: State, p: PodId)
    requires Shape(s) && Travel(s) && Possible(s, p, Deliver)
    ensures Travel(Delivered(s, p))
  {
    var s', c := Delivered(s, p), s.pods[p].cursor;
    var m, q := s.log[c], s'.pods[p];
    assert PodShape(s, p);
    if m.TokenUpdateReply? && m.to == p {
      assert TokenFlies(s, c);
      ArriveTravel(s, p, q);
    } else {
      if !IsRequest(m) && Addressed(m, p) {
        HandlerKeepsAck(s.pods[p].obj, m);
      }
      assert s' == Put(s, p, q, []);
      assert s'.log == s.log;
      forall i: nat ensures TokenFlies(s', i) <==> TokenFlies(s, i) {}
      TravelQuietKept(s, p, q, []);
    }
  }

  lemma TicketKeepsAck(o: Obj, m: Message)
    requires IsRequest(m) && !(m.TokenUpdateRequest? && m.from != o.self && o.token)
    ensures RunTicket(o, m).wtokenAck == o.wtokenAck
    ensures RunTicketSends(o, m) == [] || (|RunTicketSends(o, m)| == 1 && !NeedsToken(RunTicketSends(o, m)[0]))
  {}

  lemma RunTravel(s: State, p: PodId, t: nat)
    requires Inv(s) && Enabled(s, p, Run(t))
    ensures Travel(TicketRun(s, p, t))
  {
    RunFacts(s, p, t);
    assert PodShape(s, p) && PodValue(s, p);
    var i := s.pods[p].tickets[t].pos;
    var s', o, m := TicketRun(s, p, t), s.pods[p].obj, s.log[i];
    var q, out := s'.pods[p], RunTicketSends(o, m);
    assert s' == Put(s, p, q, out);
    if m.TokenUpdateRequest? && m.from != p && o.token {
      assert MsgShape(s, i);
      HandOverTravel(s, p, q, out[0]);
    } else {
      TicketKeepsAck(o, m);
      forall i: nat ensures TokenFlies(s', i) <==> TokenFlies(s, i) {}
      TravelQuietKept(s, p, q, out);
    }
  }

  lemma TravelStep(s: State, p: PodId, a: Action)
    requires Inv(s) && Enabled(s, p, a)
    ensures Travel(Apply(s, p, a))
  {
    match a
    case Join => JoinTravel(s, p);
    case Deliver => DeliverTravel(s, p);
    case Run(t) => RunTravel(s, p, t);
    case _ => ClientTravel(s, p, a);
  }
}
