/** Progress of the protocol: internal steps come to an end, and then nobody waits. */
module ProtocolProgress {
  import opened Consistency
  import opened Protocol
  import opened ProtocolInvariant
  import opened ProtocolTokens
  import opened ProtocolReplies
  import opened ProtocolTheorems

  // ---- nobody is left waiting -----------------------------------------------------

  /** The steps that need no application call. */
  predicate Internal(a: Action) { a.Resume? || a.Deliver? || a.Run? }

  /** No internal step is possible and no client is inside a read or write section. */
  ghost predicate AtRest(s: State) {
    && (forall p, a :: Enabled(s, p, a) ==> !Internal(a))
    && (forall p :: 0 <= p < |s.pods| ==> !s.pods[p].client.Reading? && !s.pods[p].client.Writing?)
  }

  /** Everything is delivered and no ticket and no waiting thread can run. */
  ghost predicate Settled(s: State) {
    forall p :: 0 <= p < |s.pods| && !s.pods[p].client.Absent? ==>
      && s.pods[p].cursor == |s.log|
      && Quiescent(s.log, s.pods[p])
      && !s.pods[p].client.Reading? && !s.pods[p].client.Writing?
  }

  lemma RestIsSettled(s: State)
    requires Shape(s) && AtRest(s)
    ensures Settled(s)
  {
    forall p | 0 <= p < |s.pods| && !s.pods[p].client.Absent?
      ensures s.pods[p].cursor == |s.log| && Quiescent(s.log, s.pods[p])
    {
      assert PodShape(s, p);
      assert !Enabled(s, p, Resume) && !Enabled(s, p, Deliver);
      forall t | 0 <= t < |s.pods[p].tickets| ensures !TicketReady(s.log, s.pods[p], t) {
        assert !Enabled(s, p, Run(t));
      }
    }
  }

  lemma NothingFliesSettled(s: State, i: nat)
    requires Inv(s) && Settled(s)
    ensures !InFlight(s, i)
  {
    if i < |s.log| {
      assert ReplyAt(s, i);
    }
  }

  /** At rest the token is at the pod served last, which has run all its tickets. */
  lemma AllServedSettled(s: State)
    requires Inv(s) && Settled(s)
    ensures Served(s) == |TokenRequesters(s.log, |s.log|)|
  {
    var d := Dest(s);
    DestIsPod(s);
    assert TokenAt(s, d) && PodShape(s, d) && TicketsShape(s, d) && PodValue(s, d);
    forall i: nat ensures !TokenFlies(s, i) {
      NothingFliesSettled(s, i);
    }
    assert s.pods[d].obj.token;
    NoAckSettled(s, d);
    assert s.pods[d].tickets != [] ==> !TicketReady(s.log, s.pods[d], 0);
    if s.pods[d].tickets == [] {
      NoRequests(s.log, s.pods[d].run, |s.log|);
    }
  }

  lemma NoAckSettled(s: State, p: PodId)
    requires Inv(s) && Settled(s) && p < |s.pods|
    ensures !s.pods[p].obj.wtokenAck
  {
    assert AckAt(s, p) && PodShape(s, p);
    if !s.pods[p].client.Absent? {
      forall i: nat ensures !AckFor(s, p, i) {
        NothingFliesSettled(s, i);
      }
    }
  }

  lemma NobodyWaitsForTokenSettled(s: State, p: PodId)
    requires Inv(s) && Settled(s) && p < |s.pods|
    ensures !s.pods[p].obj.wtoken
  {
    AllServedSettled(s);
    assert TokenAt(s, p) && PodValue(s, p) && PodShape(s, p);
    if s.pods[p].obj.wtoken {
      RequestersGrow(s.log, s.pods[p].run, |s.log|);
      SameTurns(s, s.pods[p].run);
      forall i: nat ensures !TokenFlies(s, i) {
        NothingFliesSettled(s, i);
      }
    }
  }

  lemma AllRunSettled(s: State, p: PodId)
    requires Inv(s) && Settled(s) && p < |s.pods| && !s.pods[p].client.Absent?
    ensures forall i :: 0 <= i < |s.log| && IsRequest(s.log[i]) ==> s.pods[p].run > i
  {
    assert PodShape(s, p) && TicketsShape(s, p);
    NoAckSettled(s, p);
    NobodyWaitsForTokenSettled(s, p);
    assert s.pods[p].tickets != [] ==> !TicketReady(s.log, s.pods[p], 0);
    NoRequests(s.log, s.pods[p].run, |s.log|);
  }

  /** No client is stranded: when no internal step is left and nobody is inside a section,
      no client is blocked in AcquireRead, AcquireWrite or CreateReplica, and the
      next AcquireRead or AcquireWrite of any client passes its first wait. */
  lemma NoClientStranded(r: seq<State>, k: nat, p: PodId)
    requires IsRun(r) && k < |r| && AtRest(r[k]) && p < |r[k].pods|
    ensures r[k].pods[p].client.Idle? || r[k].pods[p].client.Absent?
    ensures r[k].pods[p].client.Idle? ==> Enabled(r[k], p, AcquireRead) && Enabled(r[k], p, AcquireWrite)
  {
    InvHolds(r, k);
    var s := r[k];
    var q := s.pods[p];
    RestIsSettled(s);
    assert PodShape(s, p) && WaitAt(s, p);
    if Waiting(q.client) {
      var i := q.client.req;
      assert RequestAt(s, i);
      HolderIsPod(s, i);
      AllRunSettled(s, Holder(s.owner, s.log, i));
      forall j: nat ensures !FliesTo(s, j, p) {
        NothingFliesSettled(s, j);
      }
    }
  }

  lemma HolderIsPod(s: State, n: nat)
    requires Shape(s) && n <= |s.log|
    ensures Holder(s.owner, s.log, n) < |s.pods| && !s.pods[Holder(s.owner, s.log, n)].client.Absent?
  {
    if Holder(s.owner, s.log, n) == s.owner {
      assert PodShape(s, s.owner);
    } else {
      var i := HolderSent(s.owner, s.log, n);
      assert MsgShape(s, i);
    }
  }

  // ---- internal steps come to an end ----------------------------------------------

  /** How many messages the open request of a pod can still cause: its reply and, for a
      token, the acknowledgement. */
  ghost function Due(s: State, p: PodId): nat
    requires p < |s.pods|
  {
    var q := s.pods[p];
    if !Waiting(q.client) || q.client.req >= |s.log| then 0
    else if !Answered(s, q.client.req) then (if q.client.AwaitToken? then 2 else 1)
    else if q.client.AwaitToken? && !Ready(q) then 1
    else 0
  }

  /** The work left at a pod, in units that pay for the deliveries each message causes. */
  ghost function Work(s: State, p: PodId): int
    requires p < |s.pods|
  {
    var q := s.pods[p];
    if q.client.Absent? then 0
    else 3 * (|s.log| - q.cursor) + 2 * |q.tickets| + (if Ready(q) then 1 else 0) + 3 * |s.pods| * Due(s, p)
  }

  ghost function TotalWork(s: State, n: nat): int
    requires n <= |s.pods|
  {
    if n == 0 then 0 else TotalWork(s, n - 1) + Work(s, n - 1)
  }

  lemma {:induction false} WorkIsNat(s: State, n: nat)
    requires Shape(s) && n <= |s.pods|
    ensures TotalWork(s, n) >= 0
  {
    if n > 0 {
      WorkIsNat(s, n - 1);
      assert PodShape(s, n - 1);
      assert 3 * |s.pods| * Due(s, n - 1) >= 0;
    }
  }

  /** Only pod `p` changes, and its work shrinks. */
  lemma {:induction false} WorkShrinksAt(s: State, s': State, p: PodId, n: nat)
    requires n <= |s.pods| == |s'.pods| && p < |s.pods|
    requires Work(s', p) < Work(s, p)
    requires forall q :: 0 <= q < |s.pods| && q != p ==> Work(s', q) == Work(s, q)
    ensures TotalWork(s', n) <= TotalWork(s, n) && (p < n ==> TotalWork(s', n) < TotalWork(s, n))
  {
    if n > 0 {
      WorkShrinksAt(s, s', p, n - 1);
    }
  }

  /** Pod `p` sends one message, at the expense of what pod `r` was due. */
  lemma {:induction false} WorkShrinksBySending(s: State, s': State, p: PodId, r: PodId, n: nat)
    requires n <= |s.pods| == |s'.pods| && p < |s.pods| && r < |s.pods|
    requires forall q :: 0 <= q < |s.pods| ==>
               Work(s', q) <= Work(s, q) + 3 - (if q == p then 2 else 0) - (if q == r then 3 * |s.pods| else 0)
    ensures TotalWork(s', n)
            <= TotalWork(s, n) + 3 * n - (if p < n then 2 else 0) - (if r < n then 3 * |s.pods| else 0)
  {
    if n > 0 {
      WorkShrinksBySending(s, s', p, r, n - 1);
    }
  }

  lemma ResumeWork(s: State, p: PodId)
    requires Inv(s) && Enabled(s, p, Resume)
    ensures TotalWork(Resumed(s, p), |s.pods|) < TotalWork(s, |s.pods|)
  {
    var s' := Resumed(s, p);
    assert s'.log == s.log;
    assert PodShape(s, p) && WaitAt(s, p);
    forall i: nat | i <= |s.log| ensures Answered(s', i) <==> Answered(s, i) {}
    WorkShrinksAt(s, s', p, |s.pods|);
  }

  lemma QuietDeliveryWork(s: State, p: PodId, q: Pod)
    requires Inv(s) && p < |s.pods| && s.pods[p].cursor < |s.log| && !s.pods[p].client.Absent?
    requires q == s.pods[p].(obj := q.obj, cursor := s.pods[p].cursor + 1, tickets := q.tickets)
    requires |q.tickets| <= |s.pods[p].tickets| + 1 && Ready(q) == Ready(s.pods[p])
    ensures TotalWork(Put(s, p, q, []), |s.pods|) < TotalWork(s, |s.pods|)
  {
    var s' := Put(s, p, q, []);
    assert s'.log == s.log;
    forall i: nat | i <= |s.log| ensures Answered(s', i) <==> Answered(s, i) {}
    WorkShrinksAt(s, s', p, |s.pods|);
  }

  lemma ArrivalWork(s: State, p: PodId, q: Pod, out: seq<Message>)
    requires Inv(s) && p < |s.pods| && s.pods[p].cursor < |s.log| && FliesTo(s, s.pods[p].cursor, p)
    requires q == s.pods[p].(obj := q.obj, cursor := s.pods[p].cursor + 1)
    requires Waiting(q.client) ==> Ready(q)
    requires |out| == if s.log[s.pods[p].cursor].TokenUpdateReply? then 1 else 0
    ensures TotalWork(Put(s, p, q, out), |s.pods|) < TotalWork(s, |s.pods|)
  {
    var s', n := Put(s, p, q, out), |s.pods|;
    Append(s.log, out);
    assert ReplyAt(s, s.pods[p].cursor) && PodShape(s, p);
    forall i: nat | i <= |s.log| ensures Answered(s', i) <==> Answered(s, i) {}
    SameDue(s, s', p);
    if out == [] {
      assert s'.log == s.log;
      WorkShrinksAt(s, s', p, n);
    } else {
      assert Due(s', p) + 1 <= Due(s, p);
      Pays(n, Due(s', p), Due(s, p), 1);
      assert Work(s', p) <= Work(s, p) + 3 - 2 - 3 * n;
      WorkShrinksBySending(s, s', p, p, n);
    }
  }

  lemma SameDue(s: State, s': State, p: PodId)
    requires Shape(s) && |s'.pods| == |s.pods| && |s.log| <= |s'.log|
    requires forall q :: 0 <= q < |s.pods| && q != p ==> s'.pods[q] == s.pods[q]
    requires forall i: nat :: i < |s.log| && IsRequest(s.log[i]) ==> (Answered(s', i) <==> Answered(s, i))
    ensures forall q :: 0 <= q < |s.pods| && q != p ==> Due(s', q) == Due(s, q)
  {
    forall q | 0 <= q < |s.pods| && q != p ensures Due(s', q) == Due(s, q) {
      assert PodShape(s, q);
    }
  }

  lemma PassWork(s: State, p: PodId, i: nat, q: Pod)
    requires Inv(s) && RunsNow(s, p, i) && Holder(s.owner, s.log, i) != p
    requires q == s.pods[p].(obj := q.obj, tickets := q.tickets, run := i + 1)
    requires Ready(q) == Ready(s.pods[p]) && |q.tickets| < |s.pods[p].tickets|
    ensures TotalWork(Put(s, p, q, []), |s.pods|) < TotalWork(s, |s.pods|)
  {
    var s' := Put(s, p, q, []);
    assert s'.log == s.log;
    RunAnswers(s, p, i, q, []);
    SameDue(s, s', p);
    assert PodShape(s, p);
    WorkShrinksAt(s, s', p, |s.pods|);
  }

  lemma AnswerWork(s: State, p: PodId, i: nat, q: Pod, m: Message)
    requires Inv(s) && RunsNow(s, p, i) && Holder(s.owner, s.log, i) == p && s.pods[p].obj.token
    requires ReplyTo(s.log[i], m)
    requires q == s.pods[p].(obj := q.obj, tickets := q.tickets, run := i + 1)
    requires Waiting(q.client) ==> Ready(q) == Ready(s.pods[p])
    requires |q.tickets| < |s.pods[p].tickets|
    ensures TotalWork(Put(s, p, q, [m]), |s.pods|) < TotalWork(s, |s.pods|)
  {
    var s', n := Put(s, p, q, [m]), |s.pods|;
    Append(s.log, [m]);
    RunAnswers(s, p, i, q, [m]);
    assert RequestAt(s, i) && MsgShape(s, i) && PodShape(s, m.to);
    forall r | 0 <= r < n
      ensures Work(s', r) <= Work(s, r) + 3 - (if r == p then 2 else 0) - (if r == m.to then 3 * n else 0)
    {
      AnswerWorkAt(s, p, i, q, m, r);
    }
    WorkShrinksBySending(s, s', p, m.to, n);
  }

  lemma AnswerWorkAt(s: State, p: PodId, i: nat, q: Pod, m: Message, r: PodId)
    requires Inv(s) && RunsNow(s, p, i) && Holder(s.owner, s.log, i) == p && s.pods[p].obj.token
    requires ReplyTo(s.log[i], m) && r < |s.pods|
    requires q == s.pods[p].(obj := q.obj, tickets := q.tickets, run := i + 1)
    requires Waiting(q.client) ==> Ready(q) == Ready(s.pods[p])
    requires |q.tickets| < |s.pods[p].tickets|
    ensures var s', n := Put(s, p, q, [m]), |s.pods|;
      Work(s', r) <= Work(s, r) + 3 - (if r == p then 2 else 0) - (if r == m.to then 3 * n else 0)
  {
    var s', n := Put(s, p, q, [m]), |s.pods|;
    var one := if r == m.to then 1 else 0;
    AnswerDue(s, p, i, q, m, r);
    Pays(n, Due(s', r), Due(s, r), one);
    assert PodShape(s, r) && PodShape(s, p) && MsgShape(s, i) && RequestAt(s, i);
  }

  lemma Pays(n: nat, less: nat, more: nat, one: nat)
    requires less + one <= more
    ensures 3 * n * less + 3 * n * one <= 3 * n * more
  {
    assert 3 * n * more == 3 * n * less + 3 * n * one + 3 * n * (more - less - one);
  }

  lemma AnswerDue(s: State, p: PodId, i: nat, q: Pod, m: Message, r: PodId)
    requires Inv(s) && RunsNow(s, p, i) && Holder(s.owner, s.log, i) == p && s.pods[p].obj.token
    requires ReplyTo(s.log[i], m) && r < |s.pods|
    requires q == s.pods[p].(obj := q.obj, tickets := q.tickets, run := i + 1)
    requires Waiting(q.client) ==> Ready(q) == Ready(s.pods[p])
    ensures Due(Put(s, p, q, [m]), r) + (if r == m.to then 1 else 0) <= Due(s, r)
  {
    Append(s.log, [m]);
    RunAnswers(s, p, i, q, [m]);
    assert RequestAt(s, i) && MsgShape(s, i) && PodShape(s, m.to) && PodShape(s, r) && WaitAt(s, r);
  }

  /** Every internal step uses up some of the work left. */
  lemma InternalStepsUseWork(s: State, p: PodId, a: Action)
    requires Inv(s) && Enabled(s, p, a) && Internal(a)
    ensures |Apply(s, p, a).pods| == |s.pods|
    ensures 0 <= TotalWork(Apply(s, p, a), |s.pods|) < TotalWork(s, |s.pods|)
  {
    InvStep(s, p, a);
    WorkIsNat(Apply(s, p, a), |s.pods|);
    match a
    case Resume => ResumeWork(s, p);
    case Deliver => DeliverWork(s, p);
    case Run(t) => RunWork(s, p, t);
  }

  lemma DeliverWork(s: State, p: PodId)
    requires Inv(s) && Enabled(s, p, Deliver)
    ensures TotalWork(Delivered(s, p), |s.pods|) < TotalWork(s, |s.pods|)
  {
    var s', c := Delivered(s, p), s.pods[p].cursor;
    var m, q := s.log[c], s'.pods[p];
    if IsReply(m) && m.to == p {
      assert FliesTo(s, c, p);
      assert ReplyAt(s, c);
      ArrivalWork(s, p, q, HandleSends(s.pods[p].obj, m));
    } else {
      if !IsRequest(m) && Addressed(m, p) {
        HandlerKeepsWaiting(s.pods[p].obj, m);
      }
      assert s' == Put(s, p, q, []);
      QuietDeliveryWork(s, p, q);
    }
  }

  lemma RunWork(s: State, p: PodId, t: nat)
    requires Inv(s) && Enabled(s, p, Run(t))
    ensures TotalWork(TicketRun(s, p, t), |s.pods|) < TotalWork(s, |s.pods|)
  {
    RunFacts(s, p, t);
    assert PodShape(s, p) && PodValue(s, p);
    var i := s.pods[p].tickets[t].pos;
    var s', o, m := TicketRun(s, p, t), s.pods[p].obj, s.log[i];
    var q, out := s'.pods[p], RunTicketSends(o, m);
    if m.from == p {
      assert RequestAt(s, i);
      OwnTicketWithoutToken(s, p, i);
    } else {
      HoldsByTurn(s, p, i);
    }
    if o.token {
      TicketAnswers(o, m);
      assert out == [out[0]];
      assert s' == Put(s, p, q, [out[0]]);
      assert TokenAt(s, p);
      AnswerWork(s, p, i, q, out[0]);
    } else {
      TicketKeepsWaiting(o, m);
      assert s' == Put(s, p, q, []);
      PassWork(s, p, i, q);
    }
  }

  /** From any reachable state at most `TotalWork` internal steps can follow each other, so
      the pods always come to rest unless applications keep calling. */
  lemma {:induction false} InternalStepsEnd(r: seq<State>, j: nat, k: nat)
    requires IsRun(r) && j <= k < |r|
    requires forall i :: j < i <= k ==> InternalNext(r[i - 1], r[i])
    ensures |r[k].pods| == |r[j].pods|
    ensures k - j <= TotalWork(r[j], |r[j].pods|) - TotalWork(r[k], |r[k].pods|)
    ensures TotalWork(r[k], |r[k].pods|) >= 0
    decreases k
  {
    InvHolds(r, k);
    WorkIsNat(r[k], |r[k].pods|);
    if j < k {
      InternalStepsEnd(r, j, k - 1);
      InvHolds(r, k - 1);
      assert InternalNext(r[k - 1], r[k]);
      var p, a :| Enabled(r[k - 1], p, a) && Internal(a) && r[k] == Apply(r[k - 1], p, a);
      InternalStepsUseWork(r[k - 1], p, a);
    }
  }

  ghost predicate InternalNext(s: State, s': State) {
    exists p, a :: Enabled(s, p, a) && Internal(a) && s' == Apply(s, p, a)
  }
}
