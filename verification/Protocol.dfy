/** The consistency protocol of one resource over all pods.

    Assumptions, because the code's detached handler threads do not enforce them:
    (A1) every message is delivered once to each addressee, in one total order (the log),
    and takes effect when it is delivered; tickets are numbered in delivery order.
    (A2) A pod delivers only when none of its tickets and none of its waiting threads can
    run. (A3) One application thread per pod uses the resource.
    A1 and A3 are part of every step; A2 tells `IsRun` from `IsFreeRun`. */
module Protocol {
  import opened Consistency

  // ---- the log: messages in the one order in which every pod delivers them --------

  type Log = seq<Message>

  /** The senders of the token requests among the first `n` entries, in order. */
  function TokenRequesters(log: Log, n: nat): (r: seq<PodId>)
    requires n <= |log|
  {
    if n == 0 then []
    else if log[n - 1].TokenUpdateRequest? then TokenRequesters(log, n - 1) + [log[n - 1].from]
    else TokenRequesters(log, n - 1)
  }

  /** The pods to which the token replies among the first `n` entries go, in order. */
  function TokenReceivers(log: Log, n: nat): (r: seq<PodId>)
    requires n <= |log|
  {
    if n == 0 then []
    else if log[n - 1].TokenUpdateReply? then TokenReceivers(log, n - 1) + [log[n - 1].to]
    else TokenReceivers(log, n - 1)
  }

  function LastOr(s: seq<PodId>, p: PodId): PodId { if s == [] then p else s[|s| - 1] }

  /** The pod whose turn with the token covers position `n`: the last one that asked for
      it before `n`, or the owner. */
  function Holder(owner: PodId, log: Log, n: nat): PodId
    requires n <= |log|
  {
    LastOr(TokenRequesters(log, n), owner)
  }

  /** What the last write section released before position `n`. */
  function Released(log: Log, n: nat): Value
    requires n <= |log|
  {
    if n == 0 then [] else if log[n - 1].Invalidate? then log[n - 1].val else Released(log, n - 1)
  }

  /** The positions of the requests in `[a, b)`, in order. */
  function Requests(log: Log, a: nat, b: nat): (r: seq<nat>)
    requires b <= |log|
    decreases b
    ensures forall k :: 0 <= k < |r| ==> a <= r[k] < b && IsRequest(log[r[k]])
  {
    if b <= a then []
    else if IsRequest(log[b - 1]) then Requests(log, a, b - 1) + [b - 1]
    else Requests(log, a, b - 1)
  }

  lemma {:induction false} SamePrefix(log: Log, more: Log, n: nat)
    requires n <= |log|
    ensures TokenRequesters(log + more, n) == TokenRequesters(log, n)
    ensures TokenReceivers(log + more, n) == TokenReceivers(log, n)
    ensures Released(log + more, n) == Released(log, n)
  {
    if n > 0 {
      SamePrefix(log, more, n - 1);
    }
  }

  lemma Append(log: Log, more: Log)
    ensures forall n: nat :: n <= |log| ==> TokenRequesters(log + more, n) == TokenRequesters(log, n)
    ensures forall n: nat :: n <= |log| ==> TokenReceivers(log + more, n) == TokenReceivers(log, n)
    ensures forall n: nat :: n <= |log| ==> Released(log + more, n) == Released(log, n)
  {
    forall n: nat | n <= |log|
      ensures TokenRequesters(log + more, n) == TokenRequesters(log, n)
      ensures TokenReceivers(log + more, n) == TokenReceivers(log, n)
      ensures Released(log + more, n) == Released(log, n)
    {
      SamePrefix(log, more, n);
    }
  }

  lemma {:induction false} SameRequests(log: Log, more: Log, a: nat, b: nat)
    requires b <= |log|
    ensures Requests(log + more, a, b) == Requests(log, a, b)
    decreases b
  {
    if b > a {
      SameRequests(log, more, a, b - 1);
    }
  }

  lemma {:induction false} RequestersGrow(log: Log, a: nat, b: nat)
    requires a <= b <= |log|
    ensures TokenRequesters(log, a) <= TokenRequesters(log, b)
    decreases b
  {
    if a < b {
      RequestersGrow(log, a, b - 1);
    }
  }

  /** Every request in `[a, b)` is listed. */
  lemma {:induction false} RequestListed(log: Log, a: nat, b: nat, i: nat)
    requires a <= i < b <= |log| && IsRequest(log[i])
    ensures i in Requests(log, a, b)
    decreases b
  {
    if i < b - 1 {
      RequestListed(log, a, b - 1, i);
    }
  }

  /** Running the first listed request leaves the rest, and skips no request. */
  lemma {:induction false} FirstRequest(log: Log, a: nat, b: nat)
    requires b <= |log| && Requests(log, a, b) != []
    ensures var i := Requests(log, a, b)[0];
      && a <= i < b && IsRequest(log[i])
      && Requests(log, i + 1, b) == Requests(log, a, b)[1..]
      && TokenRequesters(log, a) == TokenRequesters(log, i)
      && forall j :: a <= j < i ==> !IsRequest(log[j])
    decreases b
  {
    if Requests(log, a, b - 1) == [] {
      NoRequests(log, a, b - 1);
      assert Requests(log, b, b) == [];
    } else {
      FirstRequest(log, a, b - 1);
      var i := Requests(log, a, b - 1)[0];
      assert Requests(log, a, b)[0] == i;
      if IsRequest(log[b - 1]) {
        assert Requests(log, i + 1, b) == Requests(log, i + 1, b - 1) + [b - 1];
      }
    }
  }

  lemma {:induction false} NoRequests(log: Log, a: nat, b: nat)
    requires a <= b <= |log| && Requests(log, a, b) == []
    ensures TokenRequesters(log, a) == TokenRequesters(log, b)
    ensures forall j :: a <= j < b ==> !IsRequest(log[j])
    decreases b
  {
    if a < b {
      NoRequests(log, a, b - 1);
    }
  }

  /** A holder is the owner or has sent a message before. */
  lemma {:induction false} HolderSent(owner: PodId, log: Log, n: nat) returns (i: nat)
    requires n <= |log| && Holder(owner, log, n) != owner
    ensures i < n && log[i] == TokenUpdateRequest(Holder(owner, log, n))
  {
    if log[n - 1].TokenUpdateRequest? {
      i := n - 1;
    } else {
      i := HolderSent(owner, log, n - 1);
    }
  }

  // ---- pods and steps -------------------------------------------------------------

  /** Where the application thread of a pod stands. `req` is the log position of the
      request it waits for. */
  datatype Client =
    | Absent                      // has no replica
    | Joining(req: nat)           // in CreateReplica
    | Idle
    | Reading
    | AwaitUpdate(req: nat)       // in AcquireRead, second wait
    | AwaitToken(req: nat)        // in AcquireWrite, second wait
    | Writing

  predicate Waiting(c: Client) { c.Joining? || c.AwaitUpdate? || c.AwaitToken? }

  /** A handler thread that has drawn ticket `no` for the request at `pos`. */
  datatype Ticket = Ticket(no: nat, pos: nat)

  /** `cursor`: log entries before it are delivered. `run`: the tickets of all requests
      before it have run; no step depends on it. */
  datatype Pod = Pod(obj: Obj, client: Client, tickets: seq<Ticket>, cursor: nat, run: nat)

  datatype State = State(owner: PodId, pods: seq<Pod>, log: Log)

  datatype Action =
    | Join
    | AcquireRead | ReleaseRead
    | AcquireWrite | Mutate(op: int) | ReleaseWrite
    | Resume
    | Deliver
    | Run(t: nat)

  predicate Init(s: State) {
    && s.owner < |s.pods|
    && s.log == []
    && forall p :: 0 <= p < |s.pods| ==>
         s.pods[p] == Pod(NewObj(p, p == s.owner), if p == s.owner then Idle else Absent, [], 0, 0)
  }

  /** The condition the waiting thread waits for. */
  predicate Ready(q: Pod) {
    match q.client
    case Joining(_) => q.obj.hasRsc
    case AwaitUpdate(_) => CanFinishRead(q.obj)
    case AwaitToken(_) => CanFinishWrite(q.obj)
    case _ => false
  }

  predicate TicketReady(log: Log, q: Pod, t: nat) {
    && t < |q.tickets|
    && q.tickets[t].pos < |log|
    && IsRequest(log[q.tickets[t].pos])
    && CanRunTicket(q.obj, q.tickets[t].no, log[q.tickets[t].pos])
  }

  predicate Quiescent(log: Log, q: Pod) {
    !Ready(q) && forall t :: 0 <= t < |q.tickets| ==> !TicketReady(log, q, t)
  }

  /** The steps under A1 and A3 alone. */
  predicate Possible(s: State, p: PodId, a: Action) {
    && p < |s.pods|
    && var q := s.pods[p];
       match a
       case Join => q.client.Absent?
       case AcquireRead => q.client.Idle? && CanEnterRead(q.obj)
       case ReleaseRead => q.client.Reading?
       case AcquireWrite => q.client.Idle? && CanPassWriter(EnqueueWriter(q.obj))
       case Mutate(_) => q.client.Writing?
       case ReleaseWrite => q.client.Writing?
       case Resume => Ready(q)
       case Deliver => !q.client.Absent? && q.cursor < |s.log|
       case Run(t) => TicketReady(s.log, q, t)
  }

  /** The steps under A2 too: a pod delivers only when nothing else of it can run. */
  predicate Enabled(s: State, p: PodId, a: Action) {
    Possible(s, p, a) && (a.Deliver? ==> Quiescent(s.log, s.pods[p]))
  }

  /** Pod `p` becomes `q` and `out` is appended to the log. */
  function Put(s: State, p: PodId, q: Pod, out: seq<Message>): State
    requires p < |s.pods|
  {
    State(s.owner, s.pods[p := q], s.log + out)
  }

  function Joined(s: State, p: PodId): State
    requires p < |s.pods|
  {
    var n := |s.log|;
    Put(s, p, s.pods[p].(client := Joining(n), cursor := n, run := n), [JoinGroup(s.pods[p].obj.self)])
  }

  function ReadAcquired(s: State, p: PodId): State
    requires p < |s.pods|
  {
    var q := s.pods[p];
    Put(s, p,
        q.(obj := EnterRead(q.obj), client := if q.obj.validity then Reading else AwaitUpdate(|s.log|)),
        EnterReadSends(q.obj))
  }

  function ReadReleased(s: State, p: PodId): State
    requires p < |s.pods|
  {
    Put(s, p, s.pods[p].(obj := LeaveRead(s.pods[p].obj), client := Idle), [])
  }

  function WriteAcquired(s: State, p: PodId): State
    requires p < |s.pods|
  {
    var q := s.pods[p];
    var o := EnqueueWriter(q.obj);
    Put(s, p,
        q.(obj := PassWriter(o), client := if o.token then Writing else AwaitToken(|s.log|)),
        PassWriterSends(o))
  }

  function Mutated(s: State, p: PodId, op: int): State
    requires p < |s.pods|
  {
    Put(s, p, s.pods[p].(obj := Consistency.Mutate(s.pods[p].obj, op)), [])
  }

  function WriteReleased(s: State, p: PodId): State
    requires p < |s.pods|
  {
    var q := s.pods[p];
    Put(s, p, q.(obj := LeaveWrite(q.obj), client := Idle), LeaveWriteSends(q.obj))
  }

  function Resumed(s: State, p: PodId): State
    requires p < |s.pods|
  {
    var q := s.pods[p];
    Put(s, p,
        match q.client
        case Joining(_) => q.(client := Idle)
        case AwaitUpdate(_) => q.(client := Reading, obj := FinishRead(q.obj))
        case AwaitToken(_) => q.(client := Writing, obj := FinishWrite(q.obj))
        case _ => q,
        [])
  }

  /** Is the message for this pod? Requests and invalidations go to the whole group, but a
      pod's own invalidation is discarded. */
  predicate Addressed(m: Message, p: PodId) {
    IsRequest(m) || (if m.Invalidate? then m.from != p else m.to == p)
  }

  function Delivered(s: State, p: PodId): State
    requires p < |s.pods| && s.pods[p].cursor < |s.log|
  {
    var q := s.pods[p].(cursor := s.pods[p].cursor + 1);
    var c := s.pods[p].cursor;
    var m := s.log[c];
    if IsRequest(m) then
      Put(s, p, q.(obj := TakeTicket(q.obj), tickets := q.tickets + [Ticket(q.obj.totalReq, c)]), [])
    else if Addressed(m, p) then
      Put(s, p, q.(obj := Handle(q.obj, m)), HandleSends(q.obj, m))
    else
      Put(s, p, q, [])
  }

  function TicketRun(s: State, p: PodId, t: nat): State
    requires p < |s.pods| && TicketReady(s.log, s.pods[p], t)
  {
    var q := s.pods[p];
    var i := q.tickets[t].pos;
    Put(s, p,
        q.(obj := RunTicket(q.obj, s.log[i]), tickets := q.tickets[..t] + q.tickets[t + 1..], run := i + 1),
        RunTicketSends(q.obj, s.log[i]))
  }

  function Apply(s: State, p: PodId, a: Action): State
    requires Possible(s, p, a)
  {
    match a
    case Join => Joined(s, p)
    case AcquireRead => ReadAcquired(s, p)
    case ReleaseRead => ReadReleased(s, p)
    case AcquireWrite => WriteAcquired(s, p)
    case Mutate(op) => Mutated(s, p, op)
    case ReleaseWrite => WriteReleased(s, p)
    case Resume => Resumed(s, p)
    case Deliver => Delivered(s, p)
    case Run(t) => TicketRun(s, p, t)
  }

  ghost predicate Next(s: State, s': State) {
    exists p, a :: Enabled(s, p, a) && s' == Apply(s, p, a)
  }

  ghost predicate FreeNext(s: State, s': State) {
    exists p, a :: Possible(s, p, a) && s' == Apply(s, p, a)
  }

  /** A run: any interleaving of steps of any pods from an initial state. */
  ghost predicate IsRun(r: seq<State>) {
    && |r| > 0
    && Init(r[0])
    && forall k :: 0 < k < |r| ==> Next(r[k - 1], r[k])
  }

  /** The same without A2: handlers and waiting threads may lag behind deliveries. */
  ghost predicate IsFreeRun(r: seq<State>) {
    && |r| > 0
    && Init(r[0])
    && forall k :: 0 < k < |r| ==> FreeNext(r[k - 1], r[k])
  }
}
