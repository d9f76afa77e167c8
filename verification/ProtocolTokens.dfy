/** Every step keeps the token invariant. */
module ProtocolTokens {
  import opened Consistency
  import opened Protocol
  import opened ProtocolInvariant

  ghost predicate MovesToken(m: Message) { m.TokenUpdateRequest? || m.TokenUpdateReply? }

  /** The step changes nothing the token invariant speaks about. */
  ghost predicate TokenQuiet(s: State, p: PodId, q: Pod, out: seq<Message>) {
    && p < |s.pods|
    && var q0 := s.pods[p];
       && (out == [] || (|out| == 1 && !MovesToken(out[0])))
       && q.obj.token == q0.obj.token && q.obj.wtoken == q0.obj.wtoken
       && q.run == q0.run
       && (q.client == q0.client
           || (!q.client.AwaitToken? && !q0.client.AwaitToken? && !q0.client.Absent?
               && (q.client.Writing? ==> q.obj.token)))
       && (q.cursor == q0.cursor
           || (q.cursor == q0.cursor + 1 <= |s.log|
               && !(s.log[q0.cursor].TokenUpdateReply? && s.log[q0.cursor].to == p)))
  }

  lemma SameReceivers(s: State, p: PodId, q: Pod, out: seq<Message>)
    requires p < |s.pods| && (out == [] || (|out| == 1 && !MovesToken(out[0])))
    ensures var s' := Put(s, p, q, out);
      && TokenReceivers(s'.log, |s'.log|) == TokenReceivers(s.log, |s.log|)
      && TokenRequesters(s'.log, |s'.log|) == TokenRequesters(s.log, |s.log|)
  {
    Append(s.log, out);
    assert s.log + [] == s.log;
  }

  lemma SameFlights(s: State, p: PodId, q: Pod, out: seq<Message>)
    requires TokenQuiet(s, p, q, out)
    ensures forall i: nat :: TokenFlies(Put(s, p, q, out), i) <==> TokenFlies(s, i)
  {
    var s' := Put(s, p, q, out);
    forall i: nat ensures TokenFlies(s', i) <==> TokenFlies(s, i) {
      if i < |s.log| {
        assert s'.log[i] == s.log[i];
      }
    }
  }

  lemma TokenQuietKept(s: State, p: PodId, q: Pod, out: seq<Message>)
    requires Shape(s) && Tokens(s) && TokenQuiet(s, p, q, out)
    ensures Tokens(Put(s, p, q, out))
  {
    var s' := Put(s, p, q, out);
    SameReceivers(s, p, q, out);
    SameFlights(s, p, q, out);
    Append(s.log, out);
    assert TokenInFlight(s') <==> TokenInFlight(s);
    forall r | 0 <= r < |s'.pods| ensures TokenAt(s', r) {
      assert PodShape(s, r);
      assert TokenAt(s, r);
    }
    forall i | 0 <= i < |s'.log| ensures OwnTicketAt(s', i) {
      if i < |s.log| {
        assert OwnTicketAt(s, i);
      }
    }
  }

  // ---- joining, asking and resuming -----------------------------------------------

  /** A pod without a replica has never been given a turn. */
  lemma AbsentNeverHolds(s: State, p: PodId, n: nat)
    requires Shape(s) && p < |s.pods| && s.pods[p].client.Absent? && n <= |s.log|
    ensures Holder(s.owner, s.log, n) != p
  {
    assert PodShape(s, p);
    if Holder(s.owner, s.log, n) != s.owner {
      var i := HolderSent(s.owner, s.log, n);
      assert MsgShape(s, i);
    }
  }

  lemma NothingFliesToIdle(s: State, p: PodId, i: nat)
    requires Replies(s) && p < |s.pods| && !Waiting(s.pods[p].client)
    ensures !FliesTo(s, i, p)
  {
    if i < |s.log| {
      assert ReplyAt(s, i);
    }
  }

  lemma JoinTokens(s: State, p: PodId)
    requires Shape(s) && Tokens(s) && Replies(s) && Enabled(s, p, Join)
    ensures Tokens(Joined(s, p))
  {
    var s', out := Joined(s, p), [JoinGroup(s.pods[p].obj.self)];
    Append(s.log, out);
    SameReceivers(s, p, s'.pods[p], out);
    assert PodShape(s, p);
    AbsentNeverHolds(s, p, |s.log|);
    forall i: nat ensures TokenFlies(s', i) <==> TokenFlies(s, i) {
      if i < |s.log| {
        NothingFliesToIdle(s, p, i);
      }
    }
    assert TokenInFlight(s') <==> TokenInFlight(s);
    forall r | 0 <= r < |s'.pods| ensures TokenAt(s', r) {
      assert PodShape(s, r) && TokenAt(s, r);
    }
    forall i | 0 <= i < |s'.log| ensures OwnTicketAt(s', i) {
      if i < |s.log| {
        assert OwnTicketAt(s, i) && MsgShape(s, i);
      }
    }
  }

  lemma AskFlights(s: State, p: PodId)
    requires Enabled(s, p, AcquireWrite) && !s.pods[p].obj.token
    ensures TokenInFlight(WriteAcquired(s, p)) <==> TokenInFlight(s)
    ensures Served(WriteAcquired(s, p)) == Served(s) && Dest(WriteAcquired(s, p)) == Dest(s)
  {
    var s' := WriteAcquired(s, p);
    Append(s.log, [TokenUpdateRequest(s.pods[p].obj.self)]);
    forall i: nat ensures TokenFlies(s', i) <==> TokenFlies(s, i) {}
  }

  /** What the other pods know is untouched by a new token request, and the asker is behind it. */
  lemma AskTokenAt(s: State, p: PodId, r: PodId)
    requires Shape(s) && Tokens(s) && Enabled(s, p, AcquireWrite) && !s.pods[p].obj.token && r < |s.pods|
    ensures TokenAt(WriteAcquired(s, p), r)
  {
    Append(s.log, [TokenUpdateRequest(s.pods[p].obj.self)]);
    AskFlights(s, p);
    assert PodShape(s, r) && TokenAt(s, r);
  }

  lemma AskTokens(s: State, p: PodId)
    requires Shape(s) && Tokens(s) && Enabled(s, p, AcquireWrite) && !s.pods[p].obj.token
    ensures Tokens(WriteAcquired(s, p))
  {
    var s', out := WriteAcquired(s, p), [TokenUpdateRequest(s.pods[p].obj.self)];
    Append(s.log, out);
    AskFlights(s, p);
    assert PodShape(s, p);
    forall r | 0 <= r < |s'.pods| ensures TokenAt(s', r) {
      AskTokenAt(s, p, r);
    }
    forall i | 0 <= i < |s'.log| ensures OwnTicketAt(s', i) {
      if i < |s.log| {
        assert OwnTicketAt(s, i) && PodShape(s, p) && TokenAt(s, p);
      }
    }
  }

  lemma ResumeWriterTokens(s: State, p: PodId)
    requires Shape(s) && Tokens(s) && Enabled(s, p, Resume) && s.pods[p].client.AwaitToken?
    ensures Tokens(Resumed(s, p))
  {
    var s' := Resumed(s, p);
    assert s'.log == s.log;
    assert TokenAt(s, p);
    forall i: nat ensures TokenFlies(s', i) <==> TokenFlies(s, i) {}
    assert TokenInFlight(s') <==> TokenInFlight(s);
    forall r | 0 <= r < |s'.pods| ensures TokenAt(s', r) {
      assert PodShape(s, r) && TokenAt(s, r);
    }
    forall i | 0 <= i < |s'.log| ensures OwnTicketAt(s', i) {
      assert OwnTicketAt(s, i);
    }
  }

  // ---- the token arrives ----------------------------------------------------------

  /** The token finds its pod waiting for it, with its own ticket already run: no ticket in
      front of it can still be blocked, and the pod has run everything that could run. */
  lemma OwnTicketRunFirst(s: State, p: PodId)
    requires Shape(s) && Tokens(s) && Replies(s) && Travel(s) && Enabled(s, p, Deliver)
    requires s.log[s.pods[p].cursor].TokenUpdateReply? && s.log[s.pods[p].cursor].to == p
    ensures s.pods[p].client.AwaitToken? && s.pods[p].obj.wtoken
    ensures s.pods[p].client.req < |s.log| && Answered(s, s.pods[p].client.req)
  {
    var q, c := s.pods[p], s.pods[p].cursor;
    assert TokenFlies(s, c);
    assert ReplyAt(s, c) && PodShape(s, p) && TokenAt(s, p) && TicketsShape(s, p);
    var k := q.client.req;
    if q.run <= k {
      RequestListed(s.log, q.run, c, k);
      assert !TicketReady(s.log, q, 0);
      NoAckPending(s, p);
    }
  }

  lemma NoAckPending(s: State, p: PodId)
    requires Shape(s) && Travel(s) && p < |s.pods| && s.pods[p].cursor < |s.log|
    requires TokenFlies(s, s.pods[p].cursor) && s.log[s.pods[p].cursor].to == p
    ensures !s.pods[p].obj.wtokenAck
  {
    var c := s.pods[p].cursor;
    assert FlightAt(s, c) && AckAt(s, p) && MsgShape(s, c);
    forall i: nat ensures !AckFor(s, p, i) {
      if i < |s.log| {
        assert FlightAt(s, i);
      }
    }
  }

  /** At most one token reply is in flight. */
  lemma OneFlight(s: State, i: nat, j: nat)
    requires Travel(s) && TokenFlies(s, i) && TokenFlies(s, j)
    ensures i == j
  {
    assert FlightAt(s, i) && FlightAt(s, j);
  }

  /** As many requests as tokens have been given: they are the same pods. */
  lemma SameTurns(s: State, n: nat)
    requires Tokens(s) && n <= |s.log| && TokenRequesters(s.log, n) <= TokenRequesters(s.log, |s.log|)
    ensures |TokenRequesters(s.log, n)| == Served(s) ==> TokenRequesters(s.log, n) == TokenReceivers(s.log, |s.log|)
  {}

  lemma ArrivalServed(s: State, p: PodId)
    requires Shape(s) && Tokens(s) && Replies(s) && p < |s.pods|
    requires s.pods[p].client.AwaitToken? && s.pods[p].obj.wtoken
    requires s.pods[p].client.req < |s.log| && Answered(s, s.pods[p].client.req)
    ensures s.pods[p].run <= |s.log|
    ensures TokenRequesters(s.log, s.pods[p].run) == TokenReceivers(s.log, |s.log|)
    ensures Dest(s) == p
  {
    var q := s.pods[p];
    var k := q.client.req;
    assert PodShape(s, p) && TokenAt(s, p) && RequestAt(s, k);
    RequestersGrow(s.log, q.run, |s.log|);
    SameTurns(s, q.run);
  }

  lemma ArriveTokens(s: State, p: PodId)
    requires Shape(s) && Tokens(s) && Replies(s) && Travel(s) && Enabled(s, p, Deliver)
    requires s.log[s.pods[p].cursor].TokenUpdateReply? && s.log[s.pods[p].cursor].to == p
    ensures Tokens(Delivered(s, p))
  {
    var s', c := Delivered(s, p), s.pods[p].cursor;
    OwnTicketRunFirst(s, p);
    ArrivalServed(s, p);
    var out := [TokenAck(s.pods[p].obj.self, s.log[c].from)];
    assert s'.log == s.log + out;
    Append(s.log, out);
    SameReceivers(s, p, s'.pods[p], out);
    assert TokenFlies(s, c);
    forall i: nat ensures !TokenFlies(s', i) {
      if TokenFlies(s', i) {
        assert TokenFlies(s, i);
        OneFlight(s, c, i);
      }
    }
    assert !TokenInFlight(s');
    forall r | 0 <= r < |s'.pods| ensures TokenAt(s', r) {
      assert PodShape(s, r) && TokenAt(s, r);
    }
    forall i | 0 <= i < |s'.log| ensures OwnTicketAt(s', i) {
      if i < |s.log| {
        assert OwnTicketAt(s, i);
      }
    }
  }

  // ---- tickets --------------------------------------------------------------------

  /** What is known when the oldest ticket of `p`, for the request at `i`, can run. */
  ghost predicate RunsNow(s: State, p: PodId, i: nat) {
    && p < |s.pods|
    && i < |s.log|
    && IsRequest(s.log[i])
    && s.pods[p].run <= i < s.pods[p].cursor
    && TokenRequesters(s.log, s.pods[p].run) == TokenRequesters(s.log, i)
    && (forall j :: s.pods[p].run <= j < i ==> !IsRequest(s.log[j]))
    && (s.log[i].from == p || !(s.pods[p].obj.writing > 0 || s.pods[p].obj.wtoken || s.pods[p].obj.wtokenAck))
  }

  lemma RunFacts(s: State, p: PodId, t: nat)
    requires Shape(s) && Enabled(s, p, Run(t))
    ensures s.pods[p].tickets[t].pos < |s.log| && RunsNow(s, p, s.pods[p].tickets[t].pos)
    ensures t == 0
  {
    assert PodShape(s, p) && TicketsShape(s, p);
    OnlyFirstTicketReady(s, p, t);
    FirstRequest(s.log, s.pods[p].run, s.pods[p].cursor);
  }

  /** A pod whose own ticket comes up does not hold the token. */
  lemma OwnTicketWithoutToken(s: State, p: PodId, i: nat)
    requires Shape(s) && Tokens(s) && Replies(s) && RunsNow(s, p, i) && s.log[i].from == p
    ensures !s.pods[p].obj.token && !s.pods[p].obj.wtoken
  {
    assert PodShape(s, p) && TokenAt(s, p) && RequestAt(s, i) && MsgShape(s, i);
  }

  /** A pod that runs a foreign ticket holds the token exactly if its turn covers the request. */
  lemma HoldsByTurn(s: State, p: PodId, i: nat)
    requires Shape(s) && Tokens(s) && RunsNow(s, p, i) && s.log[i].from != p
    ensures s.pods[p].obj.token <==> Holder(s.owner, s.log, i) == p
  {
    assert PodShape(s, p) && TokenAt(s, p) && MsgShape(s, i);
  }

  /** A ticket for a token request of another pod, run without the token, or for any
      request but a token request. */
  lemma PassTokens(s: State, p: PodId, i: nat, q: Pod, out: seq<Message>)
    requires Shape(s) && Tokens(s) && Replies(s) && RunsNow(s, p, i)
    requires s.log[i].TokenUpdateRequest? ==> s.log[i].from != p && !s.pods[p].obj.token
    requires q == s.pods[p].(obj := q.obj, tickets := q.tickets, run := i + 1)
    requires q.obj.token == s.pods[p].obj.token && q.obj.wtoken == s.pods[p].obj.wtoken
    requires out == [] || (|out| == 1 && !MovesToken(out[0]))
    ensures Tokens(Put(s, p, q, out))
  {
    var s' := Put(s, p, q, out);
    SameReceivers(s, p, q, out);
    Append(s.log, out);
    SameFlightsAll(s, s');
    PassedAt(s, p, i);
    forall r | 0 <= r < |s'.pods| ensures TokenAt(s', r) {
      assert PodShape(s, r) && TokenAt(s, r);
    }
    forall j | 0 <= j < |s'.log| ensures OwnTicketAt(s', j) {
      if j < |s.log| {
        assert OwnTicketAt(s, j);
      }
    }
  }

  /** A pod that runs such a ticket is not past its own outstanding token request. */
  lemma PassedAt(s: State, p: PodId, i: nat)
    requires Shape(s) && Tokens(s) && Replies(s) && RunsNow(s, p, i)
    requires s.log[i].TokenUpdateRequest? ==> s.log[i].from != p && !s.pods[p].obj.token
    ensures !s.pods[p].obj.wtoken
    ensures s.pods[p].client.AwaitToken? ==> i < s.pods[p].client.req
    ensures TokenRequesters(s.log, i + 1) == TokenRequesters(s.log, s.pods[p].run)
            || (LastOr(TokenRequesters(s.log, i + 1), s.owner) != p
                && LastOr(TokenRequesters(s.log, s.pods[p].run), s.owner) != p)
  {
    assert PodShape(s, p) && TokenAt(s, p) && MsgShape(s, i) && RequestAt(s, i);
  }

  /** `s'` delivers what `s` delivers and adds no token reply. */
  lemma SameFlightsAll(s: State, s': State)
    requires |s'.pods| == |s.pods| && |s.log| <= |s'.log| && s'.log[..|s.log|] == s.log
    requires forall r :: 0 <= r < |s.pods| ==> s'.pods[r].cursor == s.pods[r].cursor
    requires forall i :: |s.log| <= i < |s'.log| ==> !s'.log[i].TokenUpdateReply?
    ensures TokenInFlight(s') <==> TokenInFlight(s)
  {
    forall i: nat ensures TokenFlies(s', i) <==> TokenFlies(s, i) {
      if i < |s.log| {
        assert s'.log[i] == s.log[i];
      }
    }
  }

  lemma OwnTokenTicket(s: State, p: PodId, i: nat, q: Pod)
    requires Shape(s) && Tokens(s) && Replies(s) && RunsNow(s, p, i)
    requires s.log[i].TokenUpdateRequest? && s.log[i].from == p
    requires q == s.pods[p].(obj := q.obj, tickets := q.tickets, run := i + 1)
    requires q.obj.token == s.pods[p].obj.token && q.obj.wtoken
    ensures Tokens(Put(s, p, q, []))
  {
    var s' := Put(s, p, q, []);
    assert s'.log == s.log;
    SameFlightsAll(s, s');
    OwnTicketWithoutToken(s, p, i);
    assert PodShape(s, p) && TokenAt(s, p) && OwnTicketAt(s, i);
    forall r | 0 <= r < |s'.pods| ensures TokenAt(s', r) {
      assert PodShape(s, r) && TokenAt(s, r);
    }
    forall j | 0 <= j < |s'.log| ensures OwnTicketAt(s', j) {
      assert OwnTicketAt(s, j);
    }
  }

  /** The token has been given to every requester up to the holder, so the request at hand
      is the first one not served. */
  lemma HolderIsDest(s: State, p: PodId, i: nat)
    requires Shape(s) && Tokens(s) && RunsNow(s, p, i) && s.pods[p].obj.token
    ensures TokenRequesters(s.log, i) == TokenReceivers(s.log, |s.log|) && Dest(s) == p
  {
    assert PodShape(s, p) && TokenAt(s, p);
    RequestersGrow(s.log, i, |s.log|);
    SameTurns(s, i);
  }

  /** After a handover every other pod that waits with its ticket run still waits for a
      later turn, or for this one. */
  lemma OthersAtHandover(s: State, p: PodId, i: nat, r: PodId)
    requires Shape(s) && Tokens(s) && Replies(s) && RunsNow(s, p, i) && s.log[i].from != p
    requires s.log[i].TokenUpdateRequest? && s.pods[p].obj.token
    requires r < |s.pods| && r != p
    ensures !s.pods[r].obj.token
    ensures s.pods[r].run <= |s.log|
    ensures s.pods[r].obj.wtoken ==> |TokenRequesters(s.log, s.pods[r].run)| >= Served(s) + 1
    ensures s.pods[r].client.AwaitToken? ==>
              s.pods[r].client.req < |s.log| && Served(s) <= |TokenRequesters(s.log, s.pods[r].client.req)|
  {
    HolderIsDest(s, p, i);
    assert PodShape(s, r) && TokenAt(s, r) && TokenAt(s, p);
    RequestersGrow(s.log, s.pods[r].run, |s.log|);
    if s.pods[r].obj.wtoken && |TokenRequesters(s.log, s.pods[r].run)| == Served(s) {
      SameTurns(s, s.pods[r].run);
    }
    if s.pods[r].client.AwaitToken? {
      var k := s.pods[r].client.req;
      RequestersGrow(s.log, k + 1, |s.log|);
      if Served(s) == |TokenRequesters(s.log, k)| + 1 {
        SameTurns(s, k + 1);
      }
    }
  }

  lemma HandOverTokens(s: State, p: PodId, i: nat, q: Pod, out: seq<Message>)
    requires Shape(s) && Tokens(s) && Replies(s) && RunsNow(s, p, i) && s.log[i].from != p
    requires s.log[i].TokenUpdateRequest? && s.pods[p].obj.token
    requires q == s.pods[p].(obj := q.obj, tickets := q.tickets, run := i + 1)
    requires !q.obj.token && q.obj.wtoken == s.pods[p].obj.wtoken
    requires |out| == 1 && out[0].TokenUpdateReply? && out[0].to == s.log[i].from
    ensures Tokens(Put(s, p, q, out))
  {
    var s' := Put(s, p, q, out);
    Append(s.log, out);
    HolderIsDest(s, p, i);
    assert PodShape(s, p) && TokenAt(s, p) && MsgShape(s, i);
    var n := |s.log|;
    assert s'.log[n] == out[0];
    assert PodShape(s, s.log[i].from);
    assert TokenFlies(s', n);
    assert TokenReceivers(s'.log, n + 1) == TokenRequesters(s.log, i + 1);
    RequestersGrow(s.log, i + 1, n);
    forall r | 0 <= r < |s'.pods| ensures TokenAt(s', r) {
      assert PodShape(s, r) && TokenAt(s, r);
      if r != p {
        OthersAtHandover(s, p, i, r);
      }
    }
    forall j | 0 <= j < |s'.log| ensures OwnTicketAt(s', j) {
      if j < |s.log| {
        assert OwnTicketAt(s, j);
      }
    }
  }

  // ---- every step -----------------------------------------------------------------

  lemma ClientTokens(s: State, p: PodId, a: Action)
    requires Shape(s) && Tokens(s) && Enabled(s, p, a)
    requires a.AcquireRead? || a.ReleaseRead? || a.AcquireWrite? || a.Mutate? || a.ReleaseWrite? || a.Resume?
    ensures Tokens(Apply(s, p, a))
  {
    var s' := Apply(s, p, a);
    var q, out := s'.pods[p], s'.log[|s.log|..];
    assert s'.log == s.log + out;
    assert s' == Put(s, p, q, out);
    if a.AcquireWrite? && !s.pods[p].obj.token {
      AskTokens(s, p);
    } else if a.Resume? && s.pods[p].client.AwaitToken? {
      ResumeWriterTokens(s, p);
    } else {
      assert TokenQuiet(s, p, q, out);
      TokenQuietKept(s, p, q, out);
    }
  }

  lemma HandlerKeepsToken(o: Obj, m: Message)
    requires !IsRequest(m) && !m.TokenUpdateReply?
    ensures Handle(o, m).token == o.token && Handle(o, m).wtoken == o.wtoken && HandleSends(o, m) == []
  {}

  lemma DeliverOtherTokens(s: State, p: PodId)
    requires Shape(s) && Tokens(s) && Possible(s, p, Deliver)
    requires !(s.log[s.pods[p].cursor].TokenUpdateReply? && s.log[s.pods[p].cursor].to == p)
    ensures Tokens(Delivered(s, p))
  {
    var s', m := Delivered(s, p), s.log[s.pods[p].cursor];
    if !IsRequest(m) && Addressed(m, p) {
      HandlerKeepsToken(s.pods[p].obj, m);
    }
    assert s' == Put(s, p, s'.pods[p], []);
    TokenQuietKept(s, p, s'.pods[p], []);
  }

  lemma DeliverTokens(s: State, p: PodId)
    requires Shape(s) && Tokens(s) && Replies(s) && Travel(s) && Enabled(s, p, Deliver)
    ensures Tokens(Delivered(s, p))
  {
    var m := s.log[s.pods[p].cursor];
    if m.TokenUpdateReply? && m.to == p {
      ArriveTokens(s, p);
    } else {
      DeliverOtherTokens(s, p);
    }
  }

  lemma RunTokens(s: State, p: PodId, t: nat)
    requires Shape(s) && Tokens(s) && Replies(s) && Enabled(s, p, Run(t))
    ensures Tokens(TicketRun(s, p, t))
  {
    RunFacts(s, p, t);
    assert PodShape(s, p);
    var i := s.pods[p].tickets[t].pos;
    var s', o, m := TicketRun(s, p, t), s.pods[p].obj, s.log[i];
    var q, out := s'.pods[p], RunTicketSends(o, m);
    assert s' == Put(s, p, q, out);
    if !m.TokenUpdateRequest? {
      PassTokens(s, p, i, q, out);
    } else if m.from == p {
      OwnTokenTicket(s, p, i, q);
    } else if o.token {
      HandOverTokens(s, p, i, q, out);
    } else {
      PassTokens(s, p, i, q, out);
    }
  }

  lemma TokensStep(s: State, p: PodId, a: Action)
    requires Shape(s) && Tokens(s) && Replies(s) && Travel(s) && Enabled(s, p, a)
    ensures Tokens(Apply(s, p, a))
  {
    match a
    case Join => JoinTokens(s, p);
    case Deliver => DeliverTokens(s, p);
    case Run(t) => RunTokens(s, p, t);
    case _ => ClientTokens(s, p, a);
  }
}
