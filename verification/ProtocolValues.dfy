/** Every step keeps the invariant on the values held and sent, whether or not handlers and
    waiting threads keep up with deliveries. */
module ProtocolValues {
  import opened Consistency
  import opened Protocol
  import opened ProtocolInvariant

  lemma ValuesInit(s: State)
    requires Init(s)
    ensures Values(s)
  {
    forall p | 0 <= p < |s.pods| ensures PodValue(s, p) && HolderAt(s, p) {
      assert s.pods[p].obj == NewObj(p, p == s.owner);
    }
  }

  /** What is released only ever extends what was released before. */
  lemma {:induction false} ReleasedGrows(s: State, a: nat, b: nat)
    requires Values(s) && a <= b <= |s.log|
    ensures Released(s.log, a) <= Released(s.log, b)
    decreases b
  {
    if a < b {
      assert ValueAt(s, b - 1);
      ReleasedGrows(s, a, b - 1);
    }
  }

  lemma {:induction false} NoInvalidatesIn(log: Log, a: nat, b: nat)
    requires a <= b <= |log| && forall i :: a <= i < b ==> !log[i].Invalidate?
    ensures Released(log, b) == Released(log, a)
    decreases b
  {
    if a < b {
      NoInvalidatesIn(log, a, b - 1);
    }
  }

  /** An idle token holder has exactly what was released last. */
  lemma HolderIsCurrent(s: State, p: PodId)
    requires Values(s) && p < |s.pods| && s.pods[p].obj.token && !s.pods[p].client.Writing?
    ensures s.pods[p].obj.rsc == Released(s.log, |s.log|)
  {
    assert PodValue(s, p);
  }

  /** Only the token holder writes. */
  lemma OthersDoNotWrite(s: State, p: PodId, r: PodId)
    requires Values(s) && p < |s.pods| && r < |s.pods| && r != p && s.pods[p].obj.token
    ensures !s.pods[r].client.Writing? && !s.pods[r].obj.token
  {
    assert HolderAt(s, p) && PodValue(s, r);
  }

  // ---- steps that bring no value --------------------------------------------------

  /** The step leaves the replica as it is, and whatever it sends carries no new state. */
  ghost predicate ValuesQuiet(s: State, p: PodId, q: Pod, out: seq<Message>) {
    && p < |s.pods|
    && var q0 := s.pods[p];
       && (out == [] || (|out| == 1 && !IsReply(out[0]) && !out[0].Invalidate?))
       && q0.obj.rsc <= q.obj.rsc
       && (q.obj.rsc == q0.obj.rsc || (q.client == q0.client && q.client.Writing?))
       && q.obj.self == q0.obj.self
       && q.obj.writing == (if q.client.Writing? then 1 else 0)
       && (q.client.Absent? ==> q0.client.Absent?)
       && (q.client.Writing? ==> q.obj.token)
       && (!q.client.Writing? ==> !q0.client.Writing?)
       && (q.obj.token ==> q0.obj.token && q.obj.validity)
       && (q.obj.validity ==> q0.obj.validity)
       && q0.cursor <= q.cursor <= |s.log|
       && (q.cursor == q0.cursor
           || (q.cursor == q0.cursor + 1
               && (q.obj.validity && s.log[q0.cursor].Invalidate? ==> s.log[q0.cursor].from == p))
           || !q.obj.validity)
  }

  /** Nothing new is in flight. */
  lemma QuietFlights(s: State, p: PodId, q: Pod, out: seq<Message>)
    requires ValuesQuiet(s, p, q, out)
    ensures forall i: nat :: InFlight(Put(s, p, q, out), i) ==> InFlight(s, i)
    ensures forall i: nat, r: PodId :: FliesTo(Put(s, p, q, out), i, r) ==> FliesTo(s, i, r)
    ensures forall i: nat :: TokenFlies(Put(s, p, q, out), i) ==> TokenFlies(s, i)
  {}

  lemma QuietLog(s: State, out: seq<Message>)
    requires out == [] || (|out| == 1 && !out[0].Invalidate?)
    ensures Released(s.log + out, |s.log + out|) == Released(s.log, |s.log|)
    ensures forall n: nat :: n <= |s.log| ==> Released(s.log + out, n) == Released(s.log, n)
  {
    Append(s.log, out);
    assert s.log + [] == s.log;
  }

  lemma QuietMessages(s: State, p: PodId, q: Pod, out: seq<Message>)
    requires Values(s) && ValuesQuiet(s, p, q, out)
    ensures forall i :: 0 <= i < |Put(s, p, q, out).log| ==> ValueAt(Put(s, p, q, out), i)
  {
    var s' := Put(s, p, q, out);
    QuietLog(s, out);
    QuietFlights(s, p, q, out);
    assert PodValue(s, p) && HolderAt(s, p);
    forall i | 0 <= i < |s'.log| ensures ValueAt(s', i) {
      if i < |s.log| {
        assert ValueAt(s, i);
        assert FliesTo(s', i, p) ==> FliesTo(s, i, p);
      }
    }
  }

  lemma QuietPods(s: State, p: PodId, q: Pod, out: seq<Message>)
    requires Values(s) && ValuesQuiet(s, p, q, out)
    ensures forall r :: 0 <= r < |s.pods| ==> PodValue(Put(s, p, q, out), r)
  {
    var s' := Put(s, p, q, out);
    QuietLog(s, out);
    forall r | 0 <= r < |s'.pods| ensures PodValue(s', r) {
      assert PodValue(s, r);
      if r == p && s.pods[p].cursor < |s.log| {
        assert ValueAt(s, s.pods[p].cursor);
      }
    }
  }

  lemma QuietHolders(s: State, p: PodId, q: Pod, out: seq<Message>)
    requires Values(s) && ValuesQuiet(s, p, q, out)
    ensures forall r :: 0 <= r < |s.pods| ==> HolderAt(Put(s, p, q, out), r)
  {
    var s' := Put(s, p, q, out);
    QuietFlights(s, p, q, out);
    forall r | 0 <= r < |s'.pods| ensures HolderAt(s', r) {
      assert HolderAt(s, r);
    }
  }

  lemma ValuesQuietKept(s: State, p: PodId, q: Pod, out: seq<Message>)
    requires Values(s) && ValuesQuiet(s, p, q, out)
    ensures Values(Put(s, p, q, out))
  {
    QuietMessages(s, p, q, out);
    QuietPods(s, p, q, out);
    QuietHolders(s, p, q, out);
  }

  // ---- a write is released --------------------------------------------------------

  lemma ReleaseValues(s: State, p: PodId, q: Pod)
    requires Values(s) && p < |s.pods| && s.pods[p].client.Writing?
    requires q == s.pods[p].(obj := s.pods[p].obj.(writing := 0), client := Idle)
    ensures Values(Put(s, p, q, [Invalidate(p, q.obj.rsc)]))
  {
    var m, n := Invalidate(p, q.obj.rsc), |s.log|;
    var s' := Put(s, p, q, [m]);
    Append(s.log, [m]);
    assert s'.log[n] == m;
    assert PodValue(s, p) && HolderAt(s, p);
    forall i: nat ensures InFlight(s', i) <==> InFlight(s, i) {}
    forall i: nat ensures !TokenFlies(s', i) && !FliesTo(s', i, p) {
      assert !TokenFlies(s, i) && !FliesTo(s, i, p);
    }
    forall i | 0 <= i < |s'.log| ensures ValueAt(s', i) {
      if i < n {
        assert ValueAt(s, i);
      }
    }
    forall r | 0 <= r < |s'.pods| ensures PodValue(s', r) && HolderAt(s', r) {
      assert PodValue(s, r) && HolderAt(s, r);
    }
  }

  // ---- a reply is sent or arrives -------------------------------------------------

  /** The holder answers a request with its value. */
  ghost predicate Answers(s: State, p: PodId, q: Pod, m: Message) {
    && p < |s.pods| && s.pods[p].obj.token && !s.pods[p].client.Writing?
    && IsReply(m) && m.to != p && m.val == s.pods[p].obj.rsc
    && q == s.pods[p].(obj := q.obj, tickets := q.tickets, run := q.run)
    && q.obj.rsc == s.pods[p].obj.rsc && q.obj.validity == s.pods[p].obj.validity
    && q.obj.self == s.pods[p].obj.self && q.obj.writing == s.pods[p].obj.writing
    && (q.obj.token <==> !m.TokenUpdateReply?)
  }

  lemma AnswerFlies(s: State, p: PodId, q: Pod, m: Message)
    requires Values(s) && Answers(s, p, q, m)
    ensures forall i: nat :: i != |s.log| ==> (InFlight(Put(s, p, q, [m]), i) <==> InFlight(s, i))
    ensures forall i: nat :: TokenFlies(Put(s, p, q, [m]), i) ==> i == |s.log| && m.TokenUpdateReply?
    ensures forall i: nat :: !FliesTo(Put(s, p, q, [m]), i, p)
  {
    var s' := Put(s, p, q, [m]);
    assert HolderAt(s, p);
    forall i: nat ensures !FliesTo(s', i, p) {
      assert !FliesTo(s, i, p);
    }
    forall i: nat | TokenFlies(s', i) ensures i == |s.log| {
      assert !TokenFlies(s, i);
    }
  }

  lemma AnswerValues(s: State, p: PodId, q: Pod, m: Message)
    requires Values(s) && Answers(s, p, q, m)
    ensures Values(Put(s, p, q, [m]))
  {
    var s', n := Put(s, p, q, [m]), |s.log|;
    Append(s.log, [m]);
    assert s'.log[n] == m;
    HolderIsCurrent(s, p);
    AnswerFlies(s, p, q, m);
    forall j | 0 <= j < |s'.log| ensures ValueAt(s', j) {
      if j < n {
        assert ValueAt(s, j);
      } else if m.to < |s.pods| {
        assert PodValue(s, m.to);
        OthersDoNotWrite(s, p, m.to);
      }
    }
    forall r | 0 <= r < |s'.pods| ensures PodValue(s', r) && HolderAt(s', r) {
      assert PodValue(s, r) && HolderAt(s, r) && HolderAt(s, p);
    }
  }

  /** A reply reaches the pod it is for. */
  ghost predicate Arrives(s: State, p: PodId, q: Pod, out: seq<Message>) {
    && p < |s.pods| && s.pods[p].cursor < |s.log| && FliesTo(s, s.pods[p].cursor, p)
    && var m := s.log[s.pods[p].cursor];
       && q == s.pods[p].(obj := q.obj, cursor := s.pods[p].cursor + 1)
       && q.obj.rsc == m.val
       && q.obj.self == s.pods[p].obj.self && q.obj.writing == s.pods[p].obj.writing
       && (q.obj.token <==> s.pods[p].obj.token || m.TokenUpdateReply?)
       && (q.obj.token ==> q.obj.validity)
       && (out == [] || (|out| == 1 && out[0].TokenAck?))
       && !s.pods[p].client.Absent?
  }

  lemma ArrivalIsQuiet(s: State, p: PodId, q: Pod, out: seq<Message>)
    requires Values(s) && Arrives(s, p, q, out)
    ensures !s.pods[p].obj.token && !s.pods[p].client.Writing?
    ensures forall i: nat :: InFlight(Put(s, p, q, out), i) ==> InFlight(s, i) && i != s.pods[p].cursor
    ensures s.log[s.pods[p].cursor].TokenUpdateReply? ==>
              && Released(s.log, |s.log|) == q.obj.rsc
              && (forall i: nat :: !TokenFlies(Put(s, p, q, out), i))
              && (forall i: nat :: !FliesTo(Put(s, p, q, out), i, p))
              && (forall r :: 0 <= r < |s.pods| ==> !s.pods[r].obj.token)
  {
    var s', c := Put(s, p, q, out), s.pods[p].cursor;
    assert HolderAt(s, p) && PodValue(s, p) && ValueAt(s, c);
    forall i: nat | InFlight(s', i) ensures InFlight(s, i) && i != c {}
    if s.log[c].TokenUpdateReply? {
      assert TokenFlies(s, c);
      NoInvalidatesIn(s.log, c, |s.log|);
      forall i: nat ensures !TokenFlies(s', i) && !FliesTo(s', i, p) {
        if i < |s.log| {
          assert ValueAt(s, i);
        }
      }
      forall r | 0 <= r < |s.pods| ensures !s.pods[r].obj.token {
        assert HolderAt(s, r);
      }
    }
  }

  lemma ArriveMessages(s: State, p: PodId, q: Pod, out: seq<Message>)
    requires Values(s) && Arrives(s, p, q, out)
    ensures forall i :: 0 <= i < |Put(s, p, q, out).log| ==> ValueAt(Put(s, p, q, out), i)
  {
    var s', c := Put(s, p, q, out), s.pods[p].cursor;
    QuietLog(s, out);
    ArrivalIsQuiet(s, p, q, out);
    assert ValueAt(s, c);
    forall i | 0 <= i < |s'.log| ensures ValueAt(s', i) {
      if i < |s.log| {
        assert ValueAt(s, i);
        if c <= i {
          ReleasedGrows(s, c, i);
        }
      }
    }
  }

  lemma ArriveValues(s: State, p: PodId, q: Pod, out: seq<Message>)
    requires Values(s) && Arrives(s, p, q, out)
    ensures Values(Put(s, p, q, out))
  {
    var s', c := Put(s, p, q, out), s.pods[p].cursor;
    QuietLog(s, out);
    ArrivalIsQuiet(s, p, q, out);
    ArriveMessages(s, p, q, out);
    assert ValueAt(s, c);
    ReleasedGrows(s, c, |s.log|);
    forall r | 0 <= r < |s'.pods| ensures PodValue(s', r) {
      assert PodValue(s, r);
    }
    ArriveHolders(s, p, q, out);
  }

  lemma ArriveHolders(s: State, p: PodId, q: Pod, out: seq<Message>)
    requires Values(s) && Arrives(s, p, q, out)
    ensures forall r :: 0 <= r < |s.pods| ==> HolderAt(Put(s, p, q, out), r)
  {
    var s', c := Put(s, p, q, out), s.pods[p].cursor;
    ArrivalIsQuiet(s, p, q, out);
    assert ValueAt(s, c);
    forall r | 0 <= r < |s'.pods| ensures HolderAt(s', r) {
      assert HolderAt(s, r);
      forall i: nat ensures FliesTo(s', i, r) ==> FliesTo(s, i, r) {}
      forall i: nat ensures TokenFlies(s', i) ==> TokenFlies(s, i) {}
    }
  }

  // ---- every step -----------------------------------------------------------------

  /** A step of the application that is not the end of a write section. */
  lemma CallIsQuiet(s: State, p: PodId, a: Action)
    requires Values(s) && Possible(s, p, a) && !a.Deliver? && !a.Run? && !a.ReleaseWrite?
    ensures var s' := Apply(s, p, a);
      && |s'.log| >= |s.log| && s'.log[..|s.log|] == s.log
      && s'.pods == s.pods[p := s'.pods[p]] && s'.owner == s.owner
      && ValuesQuiet(s, p, s'.pods[p], s'.log[|s.log|..])
  {
    assert PodValue(s, p);
    match a
    case Join =>
    case AcquireRead =>
    case ReleaseRead =>
    case AcquireWrite =>
    case Mutate(_) =>
    case Resume =>
  }

  lemma ClientValues(s: State, p: PodId, a: Action)
    requires Values(s) && Possible(s, p, a) && !a.Deliver? && !a.Run?
    ensures Values(Apply(s, p, a))
  {
    var s' := Apply(s, p, a);
    if a.ReleaseWrite? {
      assert PodValue(s, p);
      ReleaseValues(s, p, s'.pods[p]);
    } else {
      CallIsQuiet(s, p, a);
      var out := s'.log[|s.log|..];
      assert s'.log == s.log + out;
      ValuesQuietKept(s, p, s'.pods[p], out);
    }
  }

  lemma HandlerKeepsValue(o: Obj, m: Message)
    requires m.Invalidate? || m.TokenAck?
    ensures Handle(o, m).rsc == o.rsc && Handle(o, m).token == o.token
    ensures Handle(o, m).validity == (o.validity && m.TokenAck?)
    ensures HandleSends(o, m) == []
  {}

  lemma HandlerStoresValue(o: Obj, m: Message)
    requires IsReply(m)
    ensures Handle(o, m).rsc == m.val
    ensures Handle(o, m).token == (o.token || m.TokenUpdateReply?)
    ensures Handle(o, m).validity == (o.validity || !m.CreateReplica?)
    ensures HandleSends(o, m) == if m.TokenUpdateReply? then [TokenAck(o.self, m.from)] else []
  {}

  lemma DeliverValues(s: State, p: PodId)
    requires Values(s) && Possible(s, p, Deliver)
    ensures Values(Delivered(s, p))
  {
    var s', c := Delivered(s, p), s.pods[p].cursor;
    var m, q, o := s.log[c], s'.pods[p], s.pods[p].obj;
    assert PodValue(s, p) && HolderAt(s, p);
    if !IsRequest(m) {
      HandlerKeepsThreads(o, m);
    }
    if IsReply(m) && m.to == p {
      assert FliesTo(s, c, p);
      HandlerStoresValue(o, m);
      ArriveValues(s, p, q, HandleSends(o, m));
    } else {
      if !IsRequest(m) && Addressed(m, p) {
        HandlerKeepsValue(o, m);
      }
      assert s' == Put(s, p, q, []);
      ValuesQuietKept(s, p, q, []);
    }
  }

  lemma TicketKeepsValue(o: Obj, m: Message)
    requires IsRequest(m)
    ensures RunTicket(o, m).rsc == o.rsc && RunTicket(o, m).validity == o.validity
  {}

  lemma RunValues(s: State, p: PodId, t: nat)
    requires Values(s) && Possible(s, p, Run(t))
    ensures Values(TicketRun(s, p, t))
  {
    assert PodValue(s, p);
    var s', o, m := TicketRun(s, p, t), s.pods[p].obj, s.log[s.pods[p].tickets[t].pos];
    var q, out := s'.pods[p], RunTicketSends(o, m);
    assert s' == Put(s, p, q, out);
    TicketKeepsThreads(o, m);
    TicketKeepsValue(o, m);
    TicketMovesToken(o, m);
    TicketSends(o, m);
    if out != [] {
      assert out == [out[0]];
      AnswerValues(s, p, q, out[0]);
    } else {
      ValuesQuietKept(s, p, q, out);
    }
  }

  lemma ValuesStep(s: State, p: PodId, a: Action)
    requires Values(s) && Possible(s, p, a)
    ensures Values(Apply(s, p, a))
  {
    match a
    case Deliver => DeliverValues(s, p);
    case Run(t) => RunValues(s, p, t);
    case _ => ClientValues(s, p, a);
  }

  lemma {:induction false} ValuesHold(r: seq<State>, k: nat)
    requires IsFreeRun(r) && k < |r|
    ensures Values(r[k])
  {
    if k == 0 {
      ValuesInit(r[0]);
    } else {
      ValuesHold(r, k - 1);
      assert FreeNext(r[k - 1], r[k]);
      var p, a :| Possible(r[k - 1], p, a) && r[k] == Apply(r[k - 1], p, a);
      ValuesStep(r[k - 1], p, a);
    }
  }
}
