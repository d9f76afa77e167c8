/** The protocol's promises, for every run. */
module ProtocolTheorems {
  import opened Consistency
  import opened Protocol
  import opened LogPositions
  import opened ProtocolInvariant
  import opened ProtocolTokens
  import opened ProtocolReplies
  import opened ProtocolValues

  lemma InvInit(s: State)
    requires Init(s)
    ensures Inv(s)
  {
    ValuesInit(s);
    forall p | 0 <= p < |s.pods| ensures TokenAt(s, p) {
      assert s.pods[p].obj == NewObj(p, p == s.owner);
    }
  }

  lemma InvStep(s: State, p: PodId, a: Action)
    requires Inv(s) && Enabled(s, p, a)
    ensures Inv(Apply(s, p, a))
  {
    ShapeStep(s, p, a);
    TokensStep(s, p, a);
    RepliesStep(s, p, a);
    TravelStep(s, p, a);
    ValuesStep(s, p, a);
  }

  /** Of the deliveries, only that of a token has to wait until the pod has run what it can. */
  lemma InvDeliver(s: State, p: PodId)
    requires Inv(s) && Possible(s, p, Deliver) && !Ready(s.pods[p])
    requires !(s.log[s.pods[p].cursor].TokenUpdateReply? && s.log[s.pods[p].cursor].to == p)
    ensures Inv(Delivered(s, p))
  {
    DeliverShape(s, p);
    DeliverOtherTokens(s, p);
    DeliverReplies(s, p);
    DeliverTravel(s, p);
    ValuesStep(s, p, Deliver);
  }

  /** Every state of every run satisfies the invariant. */
  lemma {:induction false} InvHolds(r: seq<State>, k: nat)
    requires IsRun(r) && k < |r|
    ensures Inv(r[k])
  {
    if k == 0 {
      InvInit(r[0]);
    } else {
      InvHolds(r, k - 1);
      assert Next(r[k - 1], r[k]);
      var p, a :| Enabled(r[k - 1], p, a) && r[k] == Apply(r[k - 1], p, a);
      InvStep(r[k - 1], p, a);
    }
  }

  // ---- one token, one writer ------------------------------------------------------

  /** The token is either at exactly one pod or in exactly one undelivered reply; a writer
      holds it, so two pods never write at once. */
  lemma ExactlyOneToken(r: seq<State>, k: nat)
    requires IsRun(r) && k < |r|
    ensures (exists p :: 0 <= p < |r[k].pods| && r[k].pods[p].obj.token) <==> !TokenInFlight(r[k])
    ensures forall p, q | 0 <= p < |r[k].pods| && 0 <= q < |r[k].pods| ::
              r[k].pods[p].obj.token && r[k].pods[q].obj.token ==> p == q
    ensures forall i: nat, j: nat :: TokenFlies(r[k], i) && TokenFlies(r[k], j) ==> i == j
    ensures forall i: nat :: TokenFlies(r[k], i) <==>
              && i < |r[k].log| && r[k].log[i].TokenUpdateReply?
              && r[k].log[i].to < |r[k].pods| && r[k].pods[r[k].log[i].to].cursor <= i
    ensures forall p :: 0 <= p < |r[k].pods| && r[k].pods[p].client.Writing? ==> r[k].pods[p].obj.token
  {
    InvHolds(r, k);
    var s := r[k];
    forall p | 0 <= p < |s.pods| ensures s.pods[p].obj.token <==> Dest(s) == p && !TokenInFlight(s) {
      assert TokenAt(s, p);
    }
    forall p | 0 <= p < |s.pods| && s.pods[p].client.Writing? ensures s.pods[p].obj.token {
      assert TokenAt(s, p);
    }
    DestIsPod(s);
    assert !TokenInFlight(s) ==> s.pods[Dest(s)].obj.token;
    forall i: nat, j: nat | TokenFlies(s, i) && TokenFlies(s, j) ensures i == j {
      OneFlight(s, i, j);
    }
  }

  lemma {:induction false} ReceiverIsPod(s: State, n: nat)
    requires Shape(s) && n <= |s.log|
    ensures LastOr(TokenReceivers(s.log, n), s.owner) < |s.pods|
  {
    if n > 0 {
      assert MsgShape(s, n - 1);
      ReceiverIsPod(s, n - 1);
    }
  }

  lemma DestIsPod(s: State)
    requires Shape(s)
    ensures Dest(s) < |s.pods|
  {
    ReceiverIsPod(s, |s.log|);
  }

  // ---- service order --------------------------------------------------------------

  /** Every token reply is sent by the pod that received the token before it. */
  ghost predicate ChainAt(s: State, i: nat)
    requires i < |s.log|
  {
    s.log[i].TokenUpdateReply? ==> s.log[i].from == LastOr(TokenReceivers(s.log, i), s.owner)
  }

  ghost predicate Chain(s: State) {
    forall i :: 0 <= i < |s.log| ==> ChainAt(s, i)
  }

  lemma ChainStep(s: State, p: PodId, a: Action)
    requires Inv(s) && Chain(s) && Enabled(s, p, a)
    ensures Chain(Apply(s, p, a))
  {
    var s' := Apply(s, p, a);
    var out := s'.log[|s.log|..];
    assert s'.log == s.log + out;
    Append(s.log, out);
    assert PodShape(s, p) && TokenAt(s, p);
    if a.Deliver? && !IsRequest(s.log[s.pods[p].cursor]) && Addressed(s.log[s.pods[p].cursor], p) {
      HandlerSendsNoToken(s.pods[p].obj, s.log[s.pods[p].cursor]);
    }
    if a.Run? {
      TicketSends(s.pods[p].obj, s.log[s.pods[p].tickets[a.t].pos]);
    }
    forall i | 0 <= i < |s'.log| ensures ChainAt(s', i) {
      if i < |s.log| {
        assert ChainAt(s, i);
      }
    }
  }

  lemma HandlerSendsNoToken(o: Obj, m: Message)
    requires !IsRequest(m)
    ensures HandleSends(o, m) == [] || HandleSends(o, m) == [TokenAck(o.self, m.from)]
  {}

  lemma {:induction false} ChainHolds(r: seq<State>, k: nat)
    requires IsRun(r) && k < |r|
    ensures Chain(r[k])
  {
    if k > 0 {
      ChainHolds(r, k - 1);
      InvHolds(r, k - 1);
      assert Next(r[k - 1], r[k]);
      var p, a :| Enabled(r[k - 1], p, a) && r[k] == Apply(r[k - 1], p, a);
      ChainStep(r[k - 1], p, a);
    }
  }

  lemma InOrder(r: seq<State>, k: nat, i: nat)
    requires IsRun(r) && k < |r| && i < |r[k].log| && r[k].log[i].TokenUpdateReply?
    ensures var log := r[k].log;
      var asked, nth := TokenRequesters(log, |log|), |TokenReceivers(log, i)|;
      && nth < |asked|
      && log[i].to == asked[nth]
      && log[i].from == (if nth == 0 then r[k].owner else asked[nth - 1])
  {
    InvHolds(r, k);
    ChainHolds(r, k);
    assert ChainAt(r[k], i);
    ReceiversGrow(r[k].log, i, |r[k].log|);
    ReceiversGrow(r[k].log, i + 1, |r[k].log|);
  }

  /** The token visits the requesters exactly in the order of their requests: the k-th
      token reply goes to the pod that asked for the token as the k-th one and comes from the
      one that asked before it, or from the owner. */
  lemma ServedInRequestOrder(r: seq<State>, k: nat, i: nat)
    requires IsRun(r) && k < |r| && i < |r[k].log| && r[k].log[i].TokenUpdateReply?
    ensures var log := r[k].log;
      var nth := |TokenSent(log, i)|;
      && AsksAs(log, nth, log[i].to)
      && if nth == 0 then log[i].from == r[k].owner else AsksAs(log, nth - 1, log[i].from)
  {
    var log := r[k].log;
    InOrder(r, k, i);
    CountSent(log, i);
    var nth := |TokenSent(log, i)|;
    RequesterAsks(log, |log|, nth);
    if nth > 0 {
      RequesterAsks(log, |log|, nth - 1);
    }
  }

  lemma {:induction false} ReceiversGrow(log: Log, a: nat, b: nat)
    requires a <= b <= |log|
    ensures TokenReceivers(log, a) <= TokenReceivers(log, b)
    decreases b
  {
    if a < b {
      ReceiversGrow(log, a, b - 1);
    }
  }

  /** A request is answered by one pod only: running its ticket sends a reply exactly at the
      pod whose turn covers its position, which is never the requester itself. */
  lemma OnlyTheHolderAnswers(r: seq<State>, k: nat, p: PodId, t: nat)
    requires IsRun(r) && k < |r| && Enabled(r[k], p, Run(t))
    ensures var s := r[k];
      var i := s.pods[p].tickets[t].pos;
      && (|Apply(s, p, Run(t)).log| > |s.log| <==> p == Holder(s.owner, s.log, i))
      && IsTurnOf(s.owner, s.log, i, Holder(s.owner, s.log, i))
      && Holder(s.owner, s.log, i) != s.log[i].from
      && (p == Holder(s.owner, s.log, i) ==> ReplyTo(s.log[i], Apply(s, p, Run(t)).log[|s.log|]))
  {
    InvHolds(r, k);
    var s := r[k];
    RunFacts(s, p, t);
    var i := s.pods[p].tickets[t].pos;
    HolderHasTurn(s.owner, s.log, i);
    assert PodShape(s, p) && PodValue(s, p) && TokenAt(s, p) && RequestAt(s, i);
    if s.log[i].from == p {
      OwnTicketWithoutToken(s, p, i);
    } else {
      HoldsByTurn(s, p, i);
    }
    if s.pods[p].obj.token {
      TicketAnswers(s.pods[p].obj, s.log[i]);
    } else {
      TicketKeepsWaiting(s.pods[p].obj, s.log[i]);
    }
  }

  /** No token reaches a pod before that pod has run the ticket of its own request. */
  lemma TokenFindsOwnTicketRun(r: seq<State>, k: nat, p: PodId)
    requires IsRun(r) && k < |r| && Enabled(r[k], p, Deliver)
    requires r[k].log[r[k].pods[p].cursor].TokenUpdateReply? && r[k].log[r[k].pods[p].cursor].to == p
    ensures r[k].pods[p].client.AwaitToken? && r[k].pods[p].run == r[k].pods[p].client.req + 1
  {
    InvHolds(r, k);
    OwnTicketRunFirst(r[k], p);
    assert TokenAt(r[k], p);
  }

  // ---- values: also when handlers and waiting threads lag behind deliveries -------

  lemma RunIsFree(r: seq<State>)
    requires IsRun(r)
    ensures IsFreeRun(r)
  {
    forall k | 0 < k < |r| ensures FreeNext(r[k - 1], r[k]) {
      assert Next(r[k - 1], r[k]);
      var p, a :| Enabled(r[k - 1], p, a) && r[k] == Apply(r[k - 1], p, a);
      assert Possible(r[k - 1], p, a);
    }
  }

  /** Every reply carries exactly the result of the write sections released before it, and
      every release extends the releases before it: no update is lost. */
  lemma RepliesCarryAllReleases(r: seq<State>, k: nat, i: nat)
    requires IsFreeRun(r) && k < |r| && i < |r[k].log|
    ensures IsReply(r[k].log[i]) ==> r[k].log[i].val == Released(r[k].log, i) && IsLatest(r[k].log, i, r[k].log[i].val)
    ensures r[k].log[i].Invalidate? ==> forall j :: 0 <= j <= i ==> Released(r[k].log, j) <= r[k].log[i].val
  {
    ValuesHold(r, k);
    assert ValueAt(r[k], i);
    ReleasedIsLatest(r[k].log, i);
    forall j | 0 <= j <= i ensures Released(r[k].log, j) <= Released(r[k].log, i) {
      ReleasedGrows(r[k], j, i);
    }
  }

  /** A write section starts from the latest released value. */
  lemma WriterStartsFromLatest(r: seq<State>, k: nat, p: PodId, a: Action)
    requires IsFreeRun(r) && k < |r| && Possible(r[k], p, a)
    requires !r[k].pods[p].client.Writing? && Apply(r[k], p, a).pods[p].client.Writing?
    ensures Apply(r[k], p, a).pods[p].obj.rsc == Released(r[k].log, |r[k].log|)
    ensures IsLatest(r[k].log, |r[k].log|, Apply(r[k], p, a).pods[p].obj.rsc)
    ensures Apply(r[k], p, a).log == r[k].log
  {
    ValuesHold(r, k);
    ReleasedIsLatest(r[k].log, |r[k].log|);
    assert a.AcquireWrite? || a.Resume?;
    HolderIsCurrent(r[k], p);
  }

  /** A token holder is always valid and, while it holds the token, is never delivered a
      foreign invalidation, an update or another token. */
  lemma HolderStaysValid(r: seq<State>, k: nat, p: PodId)
    requires IsFreeRun(r) && k < |r| && p < |r[k].pods| && r[k].pods[p].obj.token
    ensures r[k].pods[p].obj.validity
    ensures Possible(r[k], p, Deliver) ==>
              var m := r[k].log[r[k].pods[p].cursor];
              && (m.Invalidate? ==> m.from == p)
              && (m.UpdateReply? || m.TokenUpdateReply? ==> m.to != p)
  {
    ValuesHold(r, k);
    assert PodValue(r[k], p) && HolderAt(r[k], p);
    assert !FliesTo(r[k], r[k].pods[p].cursor, p);
  }

  lemma VersionStep(s: State, p: PodId, a: Action, q: PodId)
    requires Values(s) && Possible(s, p, a) && q < |s.pods|
    ensures |Apply(s, p, a).pods| == |s.pods|
    ensures s.pods[q].obj.rsc <= Apply(s, p, a).pods[q].obj.rsc
  {
    if q == p && a.Run? {
      TicketKeepsValue(s.pods[p].obj, s.log[s.pods[p].tickets[a.t].pos]);
    }
    if q == p && a.Deliver? {
      DeliveryVersion(s, p);
    }
  }

  lemma DeliveryVersion(s: State, p: PodId)
    requires Values(s) && Possible(s, p, Deliver)
    ensures s.pods[p].obj.rsc <= Delivered(s, p).pods[p].obj.rsc
  {
    var c := s.pods[p].cursor;
    var m := s.log[c];
    assert ValueAt(s, c);
    if IsReply(m) && m.to == p {
      HandlerStoresValue(s.pods[p].obj, m);
    } else if !IsRequest(m) && Addressed(m, p) {
      HandlerKeepsValue(s.pods[p].obj, m);
    }
  }

  lemma NextVersion(s: State, s': State, p: PodId)
    requires Values(s) && FreeNext(s, s') && p < |s.pods|
    ensures p < |s'.pods| && s.pods[p].obj.rsc <= s'.pods[p].obj.rsc
  {
    var p', a :| Possible(s, p', a) && s' == Apply(s, p', a);
    VersionStep(s, p', a, p);
  }

  /** The version a pod holds never decreases. */
  lemma {:induction false} VersionNeverDecreases(r: seq<State>, j: nat, k: nat, p: PodId)
    requires IsFreeRun(r) && j <= k < |r| && p < |r[j].pods|
    ensures p < |r[k].pods| && r[j].pods[p].obj.rsc <= r[k].pods[p].obj.rsc
    decreases k
  {
    if j < k {
      VersionNeverDecreases(r, j, k - 1, p);
      ValuesHold(r, k - 1);
      assert FreeNext(r[k - 1], r[k]);
      NextVersion(r[k - 1], r[k], p);
    }
  }

  /** AcquireRead returns a version that includes every write section whose invalidation the
      pod has been delivered, and every one the pod released itself. */
  lemma ReaderSeesDeliveredWrites(r: seq<State>, k: nat, p: PodId, a: Action, i: nat)
    requires IsFreeRun(r) && k < |r| && Possible(r[k], p, a)
    requires !r[k].pods[p].client.Reading? && Apply(r[k], p, a).pods[p].client.Reading?
    requires i < |r[k].log| && r[k].log[i].Invalidate? && (i < r[k].pods[p].cursor || r[k].log[i].from == p)
    ensures r[k].log[i].val <= Apply(r[k], p, a).pods[p].obj.rsc
  {
    ValuesHold(r, k);
    var s := r[k];
    assert a.AcquireRead? || a.Resume?;
    assert PodValue(s, p) && ValueAt(s, i);
    if i < s.pods[p].cursor {
      ReleasedGrows(s, i + 1, s.pods[p].cursor);
    }
  }

  // ---- each request is answered once ----------------------------------------------

  ghost function RequestsBy(log: Log, p: PodId, n: nat): nat
    requires n <= |log|
  {
    if n == 0 then 0
    else RequestsBy(log, p, n - 1) + if IsRequest(log[n - 1]) && log[n - 1].from == p then 1 else 0
  }

  ghost function RepliesTo(log: Log, p: PodId, n: nat): nat
    requires n <= |log|
  {
    if n == 0 then 0
    else RepliesTo(log, p, n - 1) + if IsReply(log[n - 1]) && log[n - 1].to == p then 1 else 0
  }

  lemma {:induction false} SameCounts(log: Log, more: Log, p: PodId, n: nat)
    requires n <= |log|
    ensures RequestsBy(log + more, p, n) == RequestsBy(log, p, n)
    ensures RepliesTo(log + more, p, n) == RepliesTo(log, p, n)
  {
    if n > 0 {
      SameCounts(log, more, p, n - 1);
    }
  }

  /** 1 if the client of `p` waits for a request that nobody has answered yet. */
  ghost function Open(s: State, p: PodId): nat
    requires p < |s.pods|
  {
    var c := s.pods[p].client;
    if Waiting(c) && c.req < |s.log| && !Answered(s, c.req) then 1 else 0
  }

  ghost predicate BalancedAt(s: State, p: PodId)
    requires p < |s.pods|
  {
    RequestsBy(s.log, p, |s.log|) == RepliesTo(s.log, p, |s.log|) + Open(s, p)
  }

  ghost predicate Balanced(s: State) {
    forall p :: 0 <= p < |s.pods| ==> BalancedAt(s, p)
  }

  /** A step that sends neither a request nor a reply keeps the balance if it keeps `Open`. */
  lemma PlainBalance(s: State, s': State, out: seq<Message>)
    requires Balanced(s) && |s'.pods| == |s.pods| && s'.log == s.log + out
    requires out == [] || (|out| == 1 && !IsRequest(out[0]) && !IsReply(out[0]))
    requires forall r :: 0 <= r < |s.pods| ==> Open(s', r) == Open(s, r)
    ensures Balanced(s')
  {
    forall r | 0 <= r < |s'.pods| ensures BalancedAt(s', r) {
      assert BalancedAt(s, r);
      SameCounts(s.log, out, r, |s.log|);
      assert s.log + [] == s.log;
    }
  }

  lemma AskBalance(s: State, p: PodId, q: Pod, m: Message)
    requires Shape(s) && Balanced(s) && p < |s.pods| && !Waiting(s.pods[p].client)
    requires IsRequest(m) && m.from == p && Holder(s.owner, s.log, |s.log|) != p
    requires Waiting(q.client) && q.client.req == |s.log|
    requires q.run == s.pods[p].run || (q.run == |s.log| && s.pods[p].client.Absent?)
    ensures Balanced(Put(s, p, q, [m]))
  {
    var s' := Put(s, p, q, [m]);
    NewRequestAnswered(s, p, q, m);
    forall r | 0 <= r < |s'.pods| ensures BalancedAt(s', r) {
      assert BalancedAt(s, r) && PodShape(s, r);
      SameCounts(s.log, [m], r, |s.log|);
    }
  }

  lemma AnswerBalance(s: State, p: PodId, i: nat, q: Pod, m: Message)
    requires Shape(s) && Replies(s) && Balanced(s) && RunsNow(s, p, i)
    requires Holder(s.owner, s.log, i) == p && ReplyTo(s.log[i], m)
    requires q == s.pods[p].(obj := q.obj, tickets := q.tickets, run := i + 1)
    ensures Balanced(Put(s, p, q, [m]))
  {
    var s' := Put(s, p, q, [m]);
    RunAnswers(s, p, i, q, [m]);
    assert RequestAt(s, i) && PodShape(s, m.to);
    forall r | 0 <= r < |s'.pods| ensures BalancedAt(s', r) {
      assert BalancedAt(s, r) && PodShape(s, r);
      ReplyCounts(s.log, m, r);
    }
  }

  lemma ReplyCounts(log: Log, m: Message, r: PodId)
    requires IsReply(m)
    ensures RequestsBy(log + [m], r, |log| + 1) == RequestsBy(log, r, |log|)
    ensures RepliesTo(log + [m], r, |log| + 1) == RepliesTo(log, r, |log|) + if m.to == r then 1 else 0
  {
    SameCounts(log, [m], r, |log|);
  }

  lemma ClientBalance(s: State, p: PodId, a: Action)
    requires Inv(s) && Balanced(s) && Enabled(s, p, a) && !a.Run? && !a.Deliver?
    ensures Balanced(Apply(s, p, a))
  {
    var s' := Apply(s, p, a);
    var q, out := s'.pods[p], s'.log[|s.log|..];
    assert s'.log == s.log + out;
    assert PodShape(s, p) && WaitAt(s, p) && PodValue(s, p);
    if a.Join? {
      AbsentNeverHolds(s, p, |s.log|);
      AskBalance(s, p, q, JoinGroup(p));
    } else if Waiting(q.client) {
      NotHolderWithoutToken(s, p);
      AskBalance(s, p, q, if a.AcquireRead? then UpdateRequest(p) else TokenUpdateRequest(p));
    } else {
      SameOpen(s, p, q, out);
      PlainBalance(s, s', out);
    }
  }

  lemma SameOpen(s: State, p: PodId, q: Pod, out: seq<Message>)
    requires Shape(s) && p < |s.pods| && q.run == s.pods[p].run
    requires q.client == s.pods[p].client || (!Waiting(q.client) && Open(s, p) == 0)
    ensures forall r :: 0 <= r < |s.pods| ==> Open(Put(s, p, q, out), r) == Open(s, r)
  {
    var s' := Put(s, p, q, out);
    Append(s.log, out);
    forall i: nat | i <= |s.log| ensures Answered(s', i) <==> Answered(s, i) {}
    forall r | 0 <= r < |s.pods| ensures Open(s', r) == Open(s, r) {
      assert PodShape(s, r);
    }
  }

  lemma DeliverBalance(s: State, p: PodId)
    requires Inv(s) && Balanced(s) && Enabled(s, p, Deliver)
    ensures Balanced(Delivered(s, p))
  {
    var s', m := Delivered(s, p), s.log[s.pods[p].cursor];
    var out := if !IsRequest(m) && Addressed(m, p) then HandleSends(s.pods[p].obj, m) else [];
    assert s' == Put(s, p, s'.pods[p], out);
    SameOpen(s, p, s'.pods[p], out);
    PlainBalance(s, s', out);
  }

  lemma RunBalance(s: State, p: PodId, t: nat)
    requires Inv(s) && Balanced(s) && Enabled(s, p, Run(t))
    ensures Balanced(TicketRun(s, p, t))
  {
    RunFacts(s, p, t);
    assert PodShape(s, p) && PodValue(s, p);
    var i := s.pods[p].tickets[t].pos;
    var s', o, m := TicketRun(s, p, t), s.pods[p].obj, s.log[i];
    var q, out := s'.pods[p], RunTicketSends(o, m);
    assert s' == Put(s, p, q, out);
    if m.from == p {
      assert RequestAt(s, i);
      OwnTicketWithoutToken(s, p, i);
    } else {
      HoldsByTurn(s, p, i);
    }
    if o.token {
      TicketAnswers(o, m);
      assert out == [out[0]];
      AnswerBalance(s, p, i, q, out[0]);
    } else {
      TicketKeepsWaiting(o, m);
      RunAnswers(s, p, i, q, []);
      assert s'.log == s.log;
      forall r | 0 <= r < |s.pods| ensures Open(s', r) == Open(s, r) {
        assert PodShape(s, r);
      }
      PlainBalance(s, s', []);
    }
  }

  lemma {:induction false} BalanceHolds(r: seq<State>, k: nat)
    requires IsRun(r) && k < |r|
    ensures Balanced(r[k])
  {
    if k > 0 {
      BalanceHolds(r, k - 1);
      InvHolds(r, k - 1);
      assert Next(r[k - 1], r[k]);
      var p, a :| Enabled(r[k - 1], p, a) && r[k] == Apply(r[k - 1], p, a);
      match a
      case Deliver => DeliverBalance(r[k - 1], p);
      case Run(t) => RunBalance(r[k - 1], p, t);
      case _ => ClientBalance(r[k - 1], p, a);
    }
  }

  /** The positions before `n` at which `p` asks, and those at which it is sent a reply. */
  ghost function AskedBefore(log: Log, p: PodId, n: nat): (asked: set<nat>)
    requires n <= |log|
    ensures forall i :: i in asked <==> 0 <= i < n && IsRequest(log[i]) && log[i].from == p
  {
    set i: nat | i < n && IsRequest(log[i]) && log[i].from == p
  }

  ghost function ToldBefore(log: Log, p: PodId, n: nat): (told: set<nat>)
    requires n <= |log|
    ensures forall i :: i in told <==> 0 <= i < n && IsReply(log[i]) && log[i].to == p
  {
    set i: nat | i < n && IsReply(log[i]) && log[i].to == p
  }

  lemma {:induction false} CountsAsked(log: Log, p: PodId, n: nat)
    requires n <= |log|
    ensures RequestsBy(log, p, n) == |AskedBefore(log, p, n)|
  {
    if n == 0 {
      assert AskedBefore(log, p, n) == {};
    } else {
      CountsAsked(log, p, n - 1);
      var asked := AskedBefore(log, p, n - 1);
      assert AskedBefore(log, p, n) == if IsRequest(log[n - 1]) && log[n - 1].from == p then asked + {n - 1} else asked;
    }
  }

  lemma {:induction false} CountsTold(log: Log, p: PodId, n: nat)
    requires n <= |log|
    ensures RepliesTo(log, p, n) == |ToldBefore(log, p, n)|
  {
    if n == 0 {
      assert ToldBefore(log, p, n) == {};
    } else {
      CountsTold(log, p, n - 1);
      var told := ToldBefore(log, p, n - 1);
      assert ToldBefore(log, p, n) == if IsReply(log[n - 1]) && log[n - 1].to == p then told + {n - 1} else told;
    }
  }

  /** When request `i` was made, its pod had been answered all earlier ones. */
  ghost predicate AskedInTurn(log: Log, i: nat)
    requires i < |log|
  {
    IsRequest(log[i]) ==> RequestsBy(log, log[i].from, i) == RepliesTo(log, log[i].from, i)
  }

  lemma InTurnStep(s: State, p: PodId, a: Action)
    requires Inv(s) && Balanced(s) && Enabled(s, p, a)
    requires forall i :: 0 <= i < |s.log| ==> AskedInTurn(s.log, i)
    ensures forall i :: 0 <= i < |Apply(s, p, a).log| ==> AskedInTurn(Apply(s, p, a).log, i)
  {
    var s' := Apply(s, p, a);
    var out := s'.log[|s.log|..];
    assert s'.log == s.log + out;
    if a.Run? {
      TicketSends(s.pods[p].obj, s.log[s.pods[p].tickets[a.t].pos]);
    }
    assert PodShape(s, p) && BalancedAt(s, p);
    forall i | 0 <= i < |s'.log| ensures AskedInTurn(s'.log, i) {
      SameCounts(s.log, out, s'.log[i].from, if i < |s.log| then i else |s.log|);
      if i < |s.log| {
        assert AskedInTurn(s.log, i);
      }
    }
  }

  lemma {:induction false} InTurnHolds(r: seq<State>, k: nat)
    requires IsRun(r) && k < |r|
    ensures forall i :: 0 <= i < |r[k].log| ==> AskedInTurn(r[k].log, i)
  {
    if k > 0 {
      InTurnHolds(r, k - 1);
      BalanceHolds(r, k - 1);
      InvHolds(r, k - 1);
      assert Next(r[k - 1], r[k]);
      var p, a :| Enabled(r[k - 1], p, a) && r[k] == Apply(r[k - 1], p, a);
      InTurnStep(r[k - 1], p, a);
    }
  }

  /** Every request is answered exactly once: at any time a pod has been sent as many replies
      as it has made requests, but for one that it still waits for; and when it made a request
      it had been sent exactly one reply for each earlier one. */
  lemma EachRequestAnsweredOnce(r: seq<State>, k: nat, p: PodId)
    requires IsRun(r) && k < |r| && p < |r[k].pods|
    ensures var log, n := r[k].log, |r[k].log|;
      && |ToldBefore(log, p, n)| <= |AskedBefore(log, p, n)| <= |ToldBefore(log, p, n)| + 1
      && (|AskedBefore(log, p, n)| > |ToldBefore(log, p, n)| ==>
            Waiting(r[k].pods[p].client) && r[k].pods[p].client.req in AskedBefore(log, p, n))
    ensures forall i :: i in AskedBefore(r[k].log, p, |r[k].log|) ==>
              |AskedBefore(r[k].log, p, i)| == |ToldBefore(r[k].log, p, i)|
  {
    InvHolds(r, k);
    BalanceHolds(r, k);
    InTurnHolds(r, k);
    var log := r[k].log;
    assert BalancedAt(r[k], p) && PodShape(r[k], p) && WaitAt(r[k], p);
    CountsAsked(log, p, |log|);
    CountsTold(log, p, |log|);
    forall i | i in AskedBefore(log, p, |log|) ensures |AskedBefore(log, p, i)| == |ToldBefore(log, p, i)| {
      assert AskedInTurn(log, i);
      CountsAsked(log, p, i);
      CountsTold(log, p, i);
    }
  }
}
