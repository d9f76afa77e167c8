/** One pod's share of a replicated resource: the monitor of `ConsistencyObject`.

    Every C++ method runs as a few critical sections separated by waits on a condition
    variable. Each section is one function here, from the object before it to the object
    after it; a guard `Can...` is the negation of the corresponding wait condition. The
    class at the end holds the fields themselves and its methods are proved against the
    functions; the protocol and the monitor modules reason about the functions. */
module Consistency {

  type PodId = nat

  /** The state of a resource, kept as the history of the mutations applied to it. Any
      real resource is a function of this history. */
  type Value = seq<int>

  /** What travels between the pods that hold a replica. The value carried by
      `Invalidate` is not on the wire: it records what the write section released. */
  datatype Message =
    | TokenUpdateRequest(from: PodId)
    | UpdateRequest(from: PodId)
    | JoinGroup(from: PodId)
    | Invalidate(from: PodId, val: Value)
    | TokenUpdateReply(from: PodId, to: PodId, val: Value)
    | UpdateReply(from: PodId, to: PodId, val: Value)
    | CreateReplica(from: PodId, to: PodId, val: Value)
    | TokenAck(from: PodId, to: PodId)

  /** The messages that take a ticket at every pod. */
  predicate IsRequest(m: Message) {
    m.TokenUpdateRequest? || m.UpdateRequest? || m.JoinGroup?
  }

  /** The unicast messages that carry a copy of the resource. */
  predicate IsReply(m: Message) {
    m.TokenUpdateReply? || m.UpdateReply? || m.CreateReplica?
  }

  datatype Obj = Obj(
    self: PodId,
    hasRsc: bool, rsc: Value,
    token: bool, validity: bool,
    reading: int, writing: int, wwriters: int,
    totalReq: nat, nextReq: nat,
    wreplica: bool, wtoken: bool, wtokenAck: bool, wupdate: bool)

  /** The object as constructed: the owner starts with the token and a valid replica. */
  function NewObj(self: PodId, owner: bool): Obj {
    Obj(self, owner, [], owner, owner, 0, 0, 0, 0, 0, false, false, false, false)
  }

  // ---- readers --------------------------------------------------------------------

  predicate CanEnterRead(o: Obj) {
    !(o.writing > 0 || o.wwriters > 0 || (!o.validity && o.reading == 1))
  }

  function EnterRead(o: Obj): Obj { o.(reading := o.reading + 1) }

  function EnterReadSends(o: Obj): seq<Message> {
    if o.validity then [] else [UpdateRequest(o.self)]
  }

  predicate CanFinishRead(o: Obj) { o.validity }

  function FinishRead(o: Obj): Obj { o.(wupdate := false) }

  function LeaveRead(o: Obj): Obj { o.(reading := o.reading - 1) }

  // ---- writers --------------------------------------------------------------------

  function EnqueueWriter(o: Obj): Obj { o.(wwriters := o.wwriters + 1) }

  predicate CanPassWriter(o: Obj) { !(o.reading > 0 || o.writing > 0) }

  function StartWriting(o: Obj): Obj {
    o.(wwriters := o.wwriters - 1, writing := o.writing + 1)
  }

  function PassWriter(o: Obj): Obj { if o.token then StartWriting(o) else o }

  function PassWriterSends(o: Obj): seq<Message> {
    if o.token then [] else [TokenUpdateRequest(o.self)]
  }

  predicate CanFinishWrite(o: Obj) { o.token && o.validity }

  function FinishWrite(o: Obj): Obj { StartWriting(o.(wtoken := false)) }

  /** A mutation of the resource inside a write section. */
  function Mutate(o: Obj, op: int): Obj { o.(rsc := o.rsc + [op]) }

  function LeaveWrite(o: Obj): Obj { o.(writing := o.writing - 1) }

  function LeaveWriteSends(o: Obj): seq<Message> { [Invalidate(o.self, o.rsc)] }

  // ---- message handlers -----------------------------------------------------------

  function TakeTicket(o: Obj): Obj { o.(totalReq := o.totalReq + 1) }

  predicate CanRunTicket(o: Obj, no: nat, req: Message)
    requires IsRequest(req)
  {
    if req.from == o.self then no <= o.nextReq
    else !(o.writing > 0 || o.wtoken || o.wtokenAck || no > o.nextReq)
  }

  /** The pod hands its token to the sender of this request. */
  predicate GivesToken(o: Obj, req: Message) { o.token && req.TokenUpdateRequest? && req.from != o.self }

  /** A pod's own request marks what it now waits for; another pod's takes the token. */
  function RunTicket(o: Obj, req: Message): Obj
    requires IsRequest(req)
  {
    o.(nextReq := o.nextReq + 1,
       wtoken := o.wtoken || (req.from == o.self && req.TokenUpdateRequest?),
       wupdate := o.wupdate || (req.from == o.self && req.UpdateRequest?),
       wreplica := o.wreplica || (req.from == o.self && req.JoinGroup?),
       token := o.token && !GivesToken(o, req),
       wtokenAck := o.wtokenAck || GivesToken(o, req))
  }

  function RunTicketSends(o: Obj, req: Message): seq<Message>
    requires IsRequest(req)
  {
    if req.from == o.self || !o.token then []
    else match req
      case TokenUpdateRequest(r) => [TokenUpdateReply(o.self, r, o.rsc)]
      case UpdateRequest(r) => if o.validity then [UpdateReply(o.self, r, o.rsc)] else []
      case JoinGroup(r) => if o.validity then [CreateReplica(o.self, r, o.rsc)] else []
  }

  /** The handlers of the messages that take no ticket. */
  function Handle(o: Obj, m: Message): Obj
    requires !IsRequest(m)
  {
    match m
    case Invalidate(_, _) => o.(validity := false)
    case TokenUpdateReply(_, _, v) => o.(token := true, rsc := v, validity := true)
    case UpdateReply(_, _, v) => o.(rsc := v, validity := true)
    case CreateReplica(_, _, v) => o.(hasRsc := true, rsc := v, wreplica := false)
    case TokenAck(_, _) => o.(wtokenAck := false)
  }

  function HandleSends(o: Obj, m: Message): seq<Message>
    requires !IsRequest(m)
  {
    if m.TokenUpdateReply? then [TokenAck(o.self, m.from)] else []
  }

  /** Handlers never touch what the threads of the pod have counted. */
  predicate SameThreads(o: Obj, o1: Obj) {
    o1.self == o.self && o1.reading == o.reading && o1.writing == o.writing && o1.wwriters == o.wwriters
  }

  lemma TicketKeepsThreads(o: Obj, req: Message)
    requires IsRequest(req)
    ensures SameThreads(o, RunTicket(o, req))
    ensures RunTicket(o, req).totalReq == o.totalReq && RunTicket(o, req).nextReq == o.nextReq + 1
    ensures |RunTicketSends(o, req)| <= 1
  {}

  lemma HandlerKeepsThreads(o: Obj, m: Message)
    requires !IsRequest(m)
    ensures SameThreads(o, Handle(o, m))
    ensures Handle(o, m).totalReq == o.totalReq && Handle(o, m).nextReq == o.nextReq
  {}

  /** What a ticket makes of the object, field by field. */
  lemma TicketResult(o: Obj, req: Message, o1: Obj)
    requires IsRequest(req) && SameThreads(o, o1) && o1.nextReq == o.nextReq + 1
    requires o1.hasRsc == o.hasRsc && o1.rsc == o.rsc && o1.validity == o.validity && o1.totalReq == o.totalReq
    requires o1.wtoken == (o.wtoken || (req.from == o.self && req.TokenUpdateRequest?))
    requires o1.wupdate == (o.wupdate || (req.from == o.self && req.UpdateRequest?))
    requires o1.wreplica == (o.wreplica || (req.from == o.self && req.JoinGroup?))
    requires o1.token == (o.token && !(req.from != o.self && req.TokenUpdateRequest?))
    requires o1.wtokenAck == (o.wtokenAck || (o.token && req.from != o.self && req.TokenUpdateRequest?))
    ensures o1 == RunTicket(o, req)
  {}

  /** The token goes only to another pod that asks for it. */
  lemma TicketMovesToken(o: Obj, m: Message)
    requires IsRequest(m)
    ensures RunTicket(o, m).token <==> o.token && !(m.TokenUpdateRequest? && m.from != o.self)
  {}

  /** Only the token holder answers, the requester, with its value; a token request takes the
      token away. */
  lemma TicketSends(o: Obj, m: Message)
    requires IsRequest(m)
    ensures RunTicketSends(o, m) == [] || (|RunTicketSends(o, m)| == 1 && IsReply(RunTicketSends(o, m)[0]))
    ensures RunTicketSends(o, m) != [] ==>
              var r := RunTicketSends(o, m)[0];
              o.token && r.from == o.self && r.to == m.from != o.self && r.val == o.rsc
              && (r.TokenUpdateReply? <==> m.TokenUpdateRequest?)
    ensures o.token && m.TokenUpdateRequest? && m.from != o.self ==> RunTicketSends(o, m) != []
  {}

  // ---- the object itself ----------------------------------------------------------

  /** The fields of the C++ object. A method is one critical section; `sent` is what it
      hands to the controller, `blocked` says that the thread goes (back) to its wait
      queue and nothing has changed. Each contract names the fields that the section may
      change and says what becomes of them, and then that this is the step of `Obj`. */
  class ConsistencyObject {
    const self: PodId
    var hasRsc: bool
    var rsc: Value
    var token: bool
    var validity: bool
    var reading: int
    var writing: int
    var wwriters: int
    var totalReq: nat
    var nextReq: nat
    var wreplica: bool
    var wtoken: bool
    var wtokenAck: bool
    var wupdate: bool
    var globalRefs: int

    function Abs(): Obj
      reads this
    {
      Obj(self, hasRsc, rsc, token, validity, reading, writing, wwriters,
          totalReq, nextReq, wreplica, wtoken, wtokenAck, wupdate)
    }

    constructor (ctrl: PodId, owner: bool)
      ensures Abs() == NewObj(ctrl, owner) && globalRefs == 1
      ensures self == ctrl && hasRsc == owner && token == owner && validity == owner && rsc == []
      ensures reading == 0 && writing == 0 && wwriters == 0 && totalReq == 0 && nextReq == 0
      ensures !wreplica && !wtoken && !wtokenAck && !wupdate
    {
      self := ctrl;
      hasRsc, rsc, token, validity := owner, [], owner, owner;
      reading, writing, wwriters := 0, 0, 0;
      totalReq, nextReq := 0, 0;
      wreplica, wtoken, wtokenAck, wupdate := false, false, false, false;
      globalRefs := 1;
    }

    /** `AcquireRead` up to its second wait; `wait` says that it asked for an update. */
    method AcquireReadEnter() returns (blocked: bool, wait: bool, sent: seq<Message>)
      modifies this`reading
      ensures blocked <==> writing > 0 || wwriters > 0 || (!validity && old(reading) == 1)
      ensures reading == if blocked then old(reading) else old(reading) + 1
      ensures wait == (!blocked && !validity) && sent == if wait then [UpdateRequest(self)] else []
      ensures blocked <==> !CanEnterRead(old(Abs()))
      ensures blocked ==> Abs() == old(Abs()) && sent == []
      ensures !blocked ==> Abs() == EnterRead(old(Abs())) && sent == EnterReadSends(old(Abs()))
    {
      if writing > 0 || wwriters > 0 || (!validity && reading == 1) {
        return true, false, [];
      }
      reading := reading + 1;
      if !validity {
        return false, true, [UpdateRequest(self)];
      }
      return false, false, [];
    }

    /** `AcquireRead` after its second wait. */
    method AcquireReadFinish() returns (blocked: bool)
      modifies this`wupdate
      ensures blocked <==> !validity
      ensures wupdate == (blocked && old(wupdate))
      ensures blocked <==> !CanFinishRead(old(Abs()))
      ensures Abs() == if blocked then old(Abs()) else FinishRead(old(Abs()))
    {
      if !validity {
        return true;
      }
      wupdate := false;
      return false;
    }

    method ReleaseRead()
      modifies this`reading
      ensures reading == old(reading) - 1
      ensures Abs() == LeaveRead(old(Abs()))
    {
      reading := reading - 1;
    }

    /** The entry of `AcquireWrite`, before its first wait. */
    method AcquireWriteEnqueue()
      modifies this`wwriters
      ensures wwriters == old(wwriters) + 1
      ensures Abs() == EnqueueWriter(old(Abs()))
    {
      wwriters := wwriters + 1;
    }

    /** `AcquireWrite` between its two waits; `wait` says that it asked for the token. */
    method AcquireWritePass() returns (blocked: bool, wait: bool, sent: seq<Message>)
      modifies this`wwriters, this`writing
      ensures blocked <==> reading > 0 || old(writing) > 0
      ensures !blocked && token ==> wwriters == old(wwriters) - 1 && writing == old(writing) + 1
      ensures blocked || !token ==> wwriters == old(wwriters) && writing == old(writing)
      ensures wait == (!blocked && !token) && sent == if wait then [TokenUpdateRequest(self)] else []
      ensures blocked <==> !CanPassWriter(old(Abs()))
      ensures blocked ==> Abs() == old(Abs()) && sent == []
      ensures !blocked ==> Abs() == PassWriter(old(Abs())) && sent == PassWriterSends(old(Abs()))
    {
      if reading > 0 || writing > 0 {
        return true, false, [];
      }
      if !token {
        return false, true, [TokenUpdateRequest(self)];
      }
      wwriters, writing := wwriters - 1, writing + 1;
      return false, false, [];
    }

    /** `AcquireWrite` after its second wait. */
    method AcquireWriteFinish() returns (blocked: bool)
      modifies this`wtoken, this`wwriters, this`writing
      ensures blocked <==> !(token && validity)
      ensures blocked ==> wtoken == old(wtoken) && wwriters == old(wwriters) && writing == old(writing)
      ensures !blocked ==> !wtoken && wwriters == old(wwriters) - 1 && writing == old(writing) + 1
      ensures blocked <==> !CanFinishWrite(old(Abs()))
      ensures Abs() == if blocked then old(Abs()) else FinishWrite(old(Abs()))
    {
      if !(token && validity) {
        return true;
      }
      wtoken := false;
      wwriters, writing := wwriters - 1, writing + 1;
      return false;
    }

    method ReleaseWrite() returns (sent: seq<Message>)
      modifies this`writing
      ensures writing == old(writing) - 1 && sent == [Invalidate(self, rsc)]
      ensures Abs() == LeaveWrite(old(Abs())) && sent == LeaveWriteSends(old(Abs()))
    {
      sent := [Invalidate(self, rsc)];
      writing := writing - 1;
    }

    /** The first statement of the three `Check...` methods. */
    method DrawTicket() returns (no: nat)
      modifies this`totalReq
      ensures totalReq == old(totalReq) + 1
      ensures no == old(totalReq) && Abs() == TakeTicket(old(Abs()))
    {
      no := totalReq;
      totalReq := totalReq + 1;
    }

    /** `CheckReplica`, `CheckUpdate` and `CheckTokenUpdate` after their wait. `size` is that of
        the group when the requester joined it. */
    method CheckRequest(no: nat, req: Message, size: nat) returns (blocked: bool, sent: seq<Message>)
      requires IsRequest(req)
      modifies this`nextReq, this`token, this`wreplica, this`wtoken, this`wtokenAck, this`wupdate, this`globalRefs
      ensures blocked <==> no > old(nextReq) || (req.from != self && (writing > 0 || old(wtoken) || old(wtokenAck)))
      ensures nextReq == if blocked then old(nextReq) else old(nextReq) + 1
      ensures var own := !blocked && req.from == self;
        && wtoken == (old(wtoken) || (own && req.TokenUpdateRequest?))
        && wupdate == (old(wupdate) || (own && req.UpdateRequest?))
        && wreplica == (old(wreplica) || (own && req.JoinGroup?))
      ensures var gives := !blocked && req.from != self && old(token) && req.TokenUpdateRequest?;
        token == (old(token) && !gives) && wtokenAck == (old(wtokenAck) || gives)
      ensures sent == if blocked || req.from == self || !old(token) then []
                      else if req.TokenUpdateRequest? then [TokenUpdateReply(self, req.from, rsc)]
                      else if !validity then []
                      else if req.UpdateRequest? then [UpdateReply(self, req.from, rsc)]
                      else [CreateReplica(self, req.from, rsc)]
      ensures blocked <==> !CanRunTicket(old(Abs()), no, req)
      ensures blocked ==> Abs() == old(Abs()) && sent == []
      ensures !blocked ==> Abs() == RunTicket(old(Abs()), req) && sent == RunTicketSends(old(Abs()), req)
      ensures globalRefs == if !blocked && req.JoinGroup? then size else old(globalRefs)
    {
      if no > nextReq || (self != req.from && (writing > 0 || wtoken || wtokenAck)) {
        return true, [];
      }
      nextReq := nextReq + 1;
      sent := [];
      if self == req.from {
        MarkOwn(req);
      } else {
        sent := Answer(req);
      }
      globalRefs := if req.JoinGroup? then size else globalRefs;
      TicketResult(old(Abs()), req, Abs());
      blocked := false;
    }

    /** The pod's own turn has come: it marks what it now waits for. */
    method MarkOwn(req: Message)
      requires IsRequest(req)
      modifies this`wreplica, this`wtoken, this`wupdate
      ensures wtoken == (old(wtoken) || req.TokenUpdateRequest?)
      ensures wupdate == (old(wupdate) || req.UpdateRequest?)
      ensures wreplica == (old(wreplica) || req.JoinGroup?)
    {
      match req
      case TokenUpdateRequest(_) => wtoken := true;
      case UpdateRequest(_) => wupdate := true;
      case JoinGroup(_) => wreplica := true;
    }

    /** Another pod's turn has come: the holder of the token answers it. */
    method Answer(req: Message) returns (sent: seq<Message>)
      requires IsRequest(req)
      modifies this`token, this`wtokenAck
      ensures token == (old(token) && !req.TokenUpdateRequest?)
      ensures wtokenAck == (old(wtokenAck) || (old(token) && req.TokenUpdateRequest?))
      ensures sent == if !old(token) then []
                      else if req.TokenUpdateRequest? then [TokenUpdateReply(self, req.from, rsc)]
                      else if !validity then []
                      else if req.UpdateRequest? then [UpdateReply(self, req.from, rsc)]
                      else [CreateReplica(self, req.from, rsc)]
    {
      sent := [];
      match req
      case TokenUpdateRequest(r) =>
        if token {
          token, wtokenAck := false, true;
          sent := [TokenUpdateReply(self, r, rsc)];
        }
      case UpdateRequest(r) =>
        if token && validity {
          sent := [UpdateReply(self, r, rsc)];
        }
      case JoinGroup(r) =>
        if token && validity {
          sent := [CreateReplica(self, r, rsc)];
        }
    }

    /** `Invalidate`, `AcquireTokenUpdate`, `Update`, `AcquireReplica` and `TokenAck`. */
    method HandleMessage(m: Message) returns (sent: seq<Message>)
      requires !IsRequest(m)
      modifies this`hasRsc, this`rsc, this`token, this`validity, this`wreplica, this`wtokenAck
      ensures token == (old(token) || m.TokenUpdateReply?)
      ensures validity == (if m.Invalidate? then false else old(validity) || m.TokenUpdateReply? || m.UpdateReply?)
      ensures rsc == if m.TokenUpdateReply? || m.UpdateReply? || m.CreateReplica? then m.val else old(rsc)
      ensures hasRsc == (old(hasRsc) || m.CreateReplica?) && wreplica == (old(wreplica) && !m.CreateReplica?)
      ensures wtokenAck == (old(wtokenAck) && !m.TokenAck?)
      ensures sent == if m.TokenUpdateReply? then [TokenAck(self, m.from)] else []
      ensures Abs() == Handle(old(Abs()), m) && sent == HandleSends(old(Abs()), m)
    {
      sent := [];
      match m
      case Invalidate(_, _) => validity := false;
      case TokenUpdateReply(replier, _, v) =>
        token := true;
        rsc, validity := v, true;
        sent := [TokenAck(self, replier)];
      case UpdateReply(_, _, v) => rsc, validity := v, true;
      case CreateReplica(_, _, v) => hasRsc, rsc, wreplica := true, v, false;
      case TokenAck(_, _) => wtokenAck := false;
    }
  }
}
