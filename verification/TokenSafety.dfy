/** Token safety without the ordering assumptions: any number of threads per pod, messages
    handled in any order once they are sent, tickets run in any order. All that is asked is
    that every message is handled at most once by each addressee. */
module TokenSafety {
  import opened Consistency
  import opened LocalMonitor

  /** A copy of a message on its way to one pod. */
  datatype Packet = Packet(dest: PodId, msg: Message)

  /** Every packet ever sent, and the indices of those already handled. */
  datatype Net = Net(pods: seq<Monitor>, sent: seq<Packet>, handled: set<nat>)

  datatype Event =
    | Thread(step: Step)     // a step of a local thread, or a ticket drawn
    | Receive(packet: nat)   // a packet is handled, in any order; a request ignores its ticket number

  predicate Init(s: Net, owner: PodId) {
    && owner < |s.pods| && s.sent == [] && s.handled == {}
    && forall p :: 0 <= p < |s.pods| ==> s.pods[p] == Initial(p, p == owner)
  }

  /** One packet per addressee: all pods but, for invalidations, the sender. */
  ghost predicate Sends(sent: seq<Packet>, sent': seq<Packet>, out: seq<Message>) {
    && |sent| <= |sent'| && sent'[..|sent|] == sent
    && (forall i :: |sent| <= i < |sent'| ==> sent'[i].msg in out)
    && (forall m :: m in out && m.TokenUpdateReply? ==>
          |sent'| == |sent| + 1 && sent'[|sent|] == Packet(m.to, m))
  }

  /** What a thread step or a handled message sends. */
  function StepSends(m: Monitor, a: Step): seq<Message> {
    match a
    case EnterRead => EnterReadSends(m.obj)
    case PassWriter => PassWriterSends(m.obj)
    case LeaveWrite => LeaveWriteSends(m.obj)
    case Ticket(_, req) => if IsRequest(req) then RunTicketSends(m.obj, req) else []
    case Handler(msg) => if IsRequest(msg) then [] else HandleSends(m.obj, msg)
    case _ => []
  }

  /** A handled packet as a step of the monitor: a request runs as a ticket whose turn has
      come, whatever its number. */
  function PacketStep(m: Monitor, msg: Message): Step {
    if IsRequest(msg) then Ticket(m.obj.nextReq, msg) else Handler(msg)
  }

  ghost predicate Next(s: Net, s': Net, p: PodId, e: Event) {
    && p < |s.pods|
    && (e.Receive? ==>
          && e.packet < |s.sent| && e.packet !in s.handled
          && s.sent[e.packet].dest == p)
    && (e.Thread? ==> !e.step.Ticket? && !e.step.Handler?)
    && var a := if e.Thread? then e.step else PacketStep(s.pods[p], s.sent[e.packet].msg);
       && Enabled(s.pods[p], a)
       && s'.pods == s.pods[p := Apply(s.pods[p], a)]
       && s'.handled == (if e.Receive? then s.handled + {e.packet} else s.handled)
       && Sends(s.sent, s'.sent, StepSends(s.pods[p], a))
  }

  ghost predicate Steps(s: Net, s': Net) {
    exists p, e :: Next(s, s', p, e)
  }

  ghost predicate IsNetRun(r: seq<Net>) {
    && |r| > 0
    && (exists owner :: Init(r[0], owner))
    && forall k :: 0 < k < |r| ==> Steps(r[k - 1], r[k])
  }

  /** Where a token can be. */
  datatype Place = AtPod(p: PodId) | InPacket(i: nat)

  predicate HasToken(s: Net, at: Place) {
    match at
    case AtPod(p) => p < |s.pods| && s.pods[p].obj.token
    case InPacket(i) => i < |s.sent| && i !in s.handled && s.sent[i].msg.TokenUpdateReply?
  }

  ghost predicate OnlyAt(s: Net, at: Place) {
    HasToken(s, at) && forall other :: HasToken(s, other) ==> other == at
  }

  ghost predicate Safe(s: Net) {
    && (exists at :: OnlyAt(s, at))
    && (forall i :: i in s.handled ==> i < |s.sent|)
    && (forall p :: 0 <= p < |s.pods| ==>
          && LocalMonitor.Inv(s.pods[p])
          && s.pods[p].obj.self == p
          && (s.pods[p].writers > 0 ==> s.pods[p].obj.token))
    && (forall i :: 0 <= i < |s.sent| && s.sent[i].msg.TokenUpdateReply? ==> s.sent[i].dest == s.sent[i].msg.to)
  }

  lemma InitSafe(s: Net, owner: PodId)
    requires Init(s, owner)
    ensures Safe(s)
  {
    assert OnlyAt(s, AtPod(owner));
  }

  /** A thread step neither moves the token nor starts a write without it. */
  lemma ThreadKeepsToken(m: Monitor, a: Step)
    requires Enabled(m, a) && !a.Ticket? && !a.Handler?
    requires m.writers > 0 ==> m.obj.token
    ensures Apply(m, a).obj.token == m.obj.token && Apply(m, a).obj.self == m.obj.self
    ensures Apply(m, a).writers > 0 ==> Apply(m, a).obj.token
  {
    match a
    case EnterRead =>
    case FinishRead =>
    case LeaveRead =>
    case EnqueueWriter =>
    case PassWriter =>
    case FinishWrite =>
    case LeaveWrite =>
    case Mutate(_) =>
    case DrawTicket =>
  }

  lemma ThreadSendsNoToken(m: Monitor, a: Step)
    requires Enabled(m, a) && !a.Ticket? && !a.Handler?
    ensures forall msg :: msg in StepSends(m, a) ==> !msg.TokenUpdateReply?
  {}

  lemma HandlerMovesToken(m: Monitor, msg: Message)
    requires !IsRequest(msg)
    ensures Handle(m.obj, msg).token == (m.obj.token || msg.TokenUpdateReply?)
    ensures forall out :: out in HandleSends(m.obj, msg) ==> !out.TokenUpdateReply?
  {}

  /** The step of pod `p` that `e` stands for. */
  function StepOf(s: Net, p: PodId, e: Event): Step
    requires p < |s.pods| && (e.Receive? ==> e.packet < |s.sent|)
  {
    if e.Thread? then e.step else PacketStep(s.pods[p], s.sent[e.packet].msg)
  }

  /** What a step does to the token of its pod. */
  lemma StepMovesToken(m: Monitor, a: Step)
    requires Enabled(m, a) && LocalMonitor.Inv(m) && (m.writers > 0 ==> m.obj.token)
    requires a.Ticket? ==> a.no == m.obj.nextReq
    ensures var m1 := Apply(m, a);
      && LocalMonitor.Inv(m1) && m1.obj.self == m.obj.self
      && (m1.writers > 0 ==> m1.obj.token)
      && (m.obj.token && !m1.obj.token ==>
            a.Ticket? && StepSends(m, a) == [TokenUpdateReply(m.obj.self, a.req.from, m.obj.rsc)])
      && (!m.obj.token && m1.obj.token ==> a.Handler? && a.msg.TokenUpdateReply?)
      && (m1.obj.token || !m.obj.token ==> forall out :: out in StepSends(m, a) ==> !out.TokenUpdateReply?)
      && (a.Handler? && a.msg.TokenUpdateReply? ==> m1.obj.token)
  {
    LocalMonitor.InvStep(m, a);
    if a.Ticket? || a.Handler? {
      HandlersKeepCounters(m, a);
      if a.Ticket? {
        TicketMovesToken(m.obj, a.req);
        TicketSends(m.obj, a.req);
      } else {
        HandlerMovesToken(m, a.msg);
      }
    } else {
      ThreadKeepsToken(m, a);
      ThreadSendsNoToken(m, a);
    }
  }

  /** A place other than those the step touches has the token afterwards only if it had it
      before. */
  lemma OtherPlaces(s: Net, s': Net, p: PodId, e: Event, at: Place)
    requires Safe(s) && Next(s, s', p, e) && HasToken(s', at) && at != AtPod(p)
    requires at.InPacket? ==> at.i < |s.sent|
    ensures HasToken(s, at) && !(e.Receive? && at == InPacket(e.packet))
  {
    if at.InPacket? {
      assert s'.sent[at.i] == s.sent[at.i];
    }
  }

  /** New packets carry the token only if the pod gives it away. */
  lemma NewPackets(s: Net, s': Net, p: PodId, e: Event, i: nat)
    requires Next(s, s', p, e) && |s.sent| <= i < |s'.sent| && s'.sent[i].msg.TokenUpdateReply?
    ensures i == |s.sent| && s'.sent[i].msg in StepSends(s.pods[p], StepOf(s, p, e))
    ensures s'.sent[i].dest == s'.sent[i].msg.to
  {}

  lemma NoNewToken(s: Net, s': Net, p: PodId, e: Event)
    requires Next(s, s', p, e)
    requires forall m :: m in StepSends(s.pods[p], StepOf(s, p, e)) ==> !m.TokenUpdateReply?
    ensures forall i :: |s.sent| <= i < |s'.sent| ==> !s'.sent[i].msg.TokenUpdateReply?
  {}

  lemma TokenLeaves(s: Net, s': Net, p: PodId, e: Event)
    requires Safe(s) && Next(s, s', p, e) && OnlyAt(s, AtPod(p)) && !s'.pods[p].obj.token
    requires exists m :: m in StepSends(s.pods[p], StepOf(s, p, e)) && m.TokenUpdateReply?
    ensures OnlyAt(s', InPacket(|s.sent|))
  {
    var n := |s.sent|;
    var m :| m in StepSends(s.pods[p], StepOf(s, p, e)) && m.TokenUpdateReply?;
    assert s'.sent[n] == Packet(m.to, m);
    forall other | HasToken(s', other) ensures other == InPacket(n) {
      if other.InPacket? && other.i >= n {
        NewPackets(s, s', p, e, other.i);
      } else if other != AtPod(p) {
        OtherPlaces(s, s', p, e, other);
      }
    }
  }

  lemma TokenComes(s: Net, s': Net, p: PodId, e: Event)
    requires Safe(s) && Next(s, s', p, e) && e.Receive? && OnlyAt(s, InPacket(e.packet)) && s'.pods[p].obj.token
    requires forall m :: m in StepSends(s.pods[p], StepOf(s, p, e)) ==> !m.TokenUpdateReply?
    ensures OnlyAt(s', AtPod(p))
  {
    NoNewToken(s, s', p, e);
    forall other | HasToken(s', other) ensures other == AtPod(p) {
      if other != AtPod(p) {
        OtherPlaces(s, s', p, e, other);
      }
    }
  }

  lemma TokenStays(s: Net, s': Net, p: PodId, e: Event, at: Place)
    requires Safe(s) && Next(s, s', p, e) && OnlyAt(s, at) && s'.pods[p].obj.token == s.pods[p].obj.token
    requires e.Receive? ==> at != InPacket(e.packet)
    requires forall m :: m in StepSends(s.pods[p], StepOf(s, p, e)) ==> !m.TokenUpdateReply?
    ensures OnlyAt(s', at)
  {
    assert HasToken(s', at) by {
      if at.InPacket? {
        assert s'.sent[at.i] == s.sent[at.i];
      }
    }
    NoNewToken(s, s', p, e);
    forall other | HasToken(s', other) ensures other == at {
      if other != AtPod(p) {
        OtherPlaces(s, s', p, e, other);
      } else {
        assert HasToken(s, other);
      }
    }
  }

  /** The whole of `Safe` after a step, once the token's new place is known. */
  lemma SafeAt(s: Net, s': Net, p: PodId, e: Event, at: Place)
    requires Safe(s) && Next(s, s', p, e) && OnlyAt(s', at)
    requires LocalMonitor.Inv(s'.pods[p]) && s'.pods[p].obj.self == p
    requires s'.pods[p].writers > 0 ==> s'.pods[p].obj.token
    ensures Safe(s')
  {
    forall i | 0 <= i < |s'.sent| && s'.sent[i].msg.TokenUpdateReply?
      ensures s'.sent[i].dest == s'.sent[i].msg.to
    {
      if i < |s.sent| {
        assert s'.sent[i] == s.sent[i];
      } else {
        NewPackets(s, s', p, e, i);
      }
    }
  }

  lemma SafeStep(s: Net, s': Net, p: PodId, e: Event)
    requires Safe(s) && Next(s, s', p, e)
    ensures Safe(s')
  {
    var m, a := s.pods[p], StepOf(s, p, e);
    StepMovesToken(m, a);
    assert s'.pods[p] == Apply(m, a);
    var at :| OnlyAt(s, at);
    if m.obj.token && !s'.pods[p].obj.token {
      assert HasToken(s, AtPod(p));
      assert TokenUpdateReply(m.obj.self, a.req.from, m.obj.rsc) in StepSends(m, a);
      TokenLeaves(s, s', p, e);
      SafeAt(s, s', p, e, InPacket(|s.sent|));
    } else if e.Receive? && s.sent[e.packet].msg.TokenUpdateReply? {
      assert HasToken(s, InPacket(e.packet));
      TokenComes(s, s', p, e);
      SafeAt(s, s', p, e, AtPod(p));
    } else {
      TokenStays(s, s', p, e, at);
      SafeAt(s, s', p, e, at);
    }
  }

  lemma {:induction false} SafeHolds(r: seq<Net>, k: nat)
    requires IsNetRun(r) && k < |r|
    ensures Safe(r[k])
  {
    if k == 0 {
      var owner :| Init(r[0], owner);
      InitSafe(r[0], owner);
    } else {
      SafeHolds(r, k - 1);
      assert Steps(r[k - 1], r[k]);
      var p, e :| Next(r[k - 1], r[k], p, e);
      SafeStep(r[k - 1], r[k], p, e);
    }
  }

  /** With any number of local threads and any order of handling, the token is in exactly
      one place, a pod with an active writer has it, and so two pods never write at once. */
  lemma OneTokenOneWritingPod(r: seq<Net>, k: nat)
    requires IsNetRun(r) && k < |r|
    ensures exists at :: OnlyAt(r[k], at)
    ensures forall p :: 0 <= p < |r[k].pods| && r[k].pods[p].writers > 0 ==> r[k].pods[p].obj.token
    ensures forall p, q | 0 <= p < |r[k].pods| && 0 <= q < |r[k].pods| ::
              r[k].pods[p].writers > 0 && r[k].pods[q].writers > 0 ==> p == q
  {
    SafeHolds(r, k);
    var s := r[k];
    forall p, q | 0 <= p < |s.pods| && 0 <= q < |s.pods| && s.pods[p].writers > 0 && s.pods[q].writers > 0
      ensures p == q
    {
      assert HasToken(s, AtPod(p)) && HasToken(s, AtPod(q));
    }
  }
}
